/**
 * Dependency markers in task notes (`dolist/dependency.py`): `depends #N`
 * blocks a task on task N, `under #N` makes it a child of task N. A marker
 * is the word in any letter case, one or more whitespace characters, `#`
 * and a run of digits, as the patterns `depends\s+#(\d+)` and
 * `under\s+#(\d+)` with `re.IGNORECASE` match it.
 */
module Dependency {
  import opened Wrappers
  import opened Text

  const DependsWord: string := "depends"
  const UnderWord: string := "under"

  /** A marker word: lower-case ASCII letters whose first letter does not recur. */
  predicate MarkerWord(w: string) {
    && w != [] && (forall k | 0 <= k < |w| :: IsLowerLetter(w[k]))
    && (forall k | 1 <= k < |w| :: w[k] != w[0])
  }

  lemma UnderIsMarkerWord()
    ensures MarkerWord(UnderWord)
  {
  }

  // ------------------------------------------------------------- one match

  /**
   * Pattern letter `p` against text character `c` under `re.IGNORECASE`:
   * equal after lowering, and the long s (U+017F) also matches `s`.
   */
  predicate LetterMatches(c: char, p: char) {
    LowerChar(c) == p || (p == 's' && c == 'ſ')
  }

  lemma LetterMatchesOne(c: char, p: char, q: char)
    requires IsLowerLetter(p) && IsLowerLetter(q)
    requires LetterMatches(c, p) && LetterMatches(c, q)
    ensures p == q
  {
  }

  predicate WordAt(s: string, i: nat, w: string) {
    i + |w| <= |s| && forall k | 0 <= k < |w| :: LetterMatches(s[i + k], w[k])
  }

  /**
   * The regular expression matches `s[i..e]`: the word, whitespace up to
   * `m`, `#` at `m`, digits after it.
   */
  predicate Shape(s: string, i: nat, w: string, m: nat, e: nat) {
    && WordAt(s, i, w) && i + |w| < m && m + 1 < e <= |s|
    && (forall k | i + |w| <= k < m :: IsSpace(s[k])) && s[m] == '#'
    && (forall k | m + 1 <= k < e :: IsDigit(s[k]))
  }

  /** Length of the run of whitespace at `j`. */
  function SpaceRun(s: string, j: nat): (n: nat)
    requires j <= |s|
    ensures j + n <= |s| && forall k | j <= k < j + n :: IsSpace(s[k])
    ensures j + n < |s| ==> !IsSpace(s[j + n])
    decreases |s| - j
  {
    if j < |s| && IsSpace(s[j]) then 1 + SpaceRun(s, j + 1) else 0
  }

  /** Length of the run of digits at `j`. */
  function DigitRun(s: string, j: nat): (n: nat)
    requires j <= |s|
    ensures j + n <= |s| && forall k | j <= k < j + n :: IsDigit(s[k])
    ensures j + n < |s| ==> !IsDigit(s[j + n])
    decreases |s| - j
  {
    if j < |s| && IsDigit(s[j]) then 1 + DigitRun(s, j + 1) else 0
  }

  lemma {:induction false} SpaceRunExact(s: string, j: nat, m: nat)
    requires j <= m < |s| && (forall k | j <= k < m :: IsSpace(s[k])) && !IsSpace(s[m])
    ensures SpaceRun(s, j) == m - j
    decreases m - j
  {
    if j < m {
      SpaceRunExact(s, j + 1, m);
    }
  }

  lemma {:induction false} DigitRunCovers(s: string, j: nat, e: nat)
    requires j <= e <= |s| && (forall k | j <= k < e :: IsDigit(s[k]))
    ensures j + DigitRun(s, j) >= e
    decreases e - j
  {
    if j < e {
      DigitRunCovers(s, j + 1, e);
    }
  }

  /** A match found at `i`: the number it names and where the match ends. */
  datatype Marker = Marker(value: nat, end: nat)

  /**
   * What follows the word, from `j`: whitespace, `#` and digits, the digit
   * run taken whole as the greedy `\d+` takes it.
   */
  function AfterWord(s: string, j: nat): (r: Option<Marker>)
    requires j <= |s|
    ensures r.Some? ==> j < r.value.end <= |s|
  {
    var sp := SpaceRun(s, j);
    if sp == 0 || j + sp >= |s| || s[j + sp] != '#' then None
    else
      var d := DigitRun(s, j + sp + 1);
      if d == 0 then None
      else Some(Marker(DigitsValue(s[j + sp + 1..j + sp + 1 + d]), j + sp + 1 + d))
  }

  /** Matching the word at `i` from its letter `k` on, then the rest of the pattern. */
  function MatchFrom(s: string, i: nat, w: string, k: nat): (r: Option<Marker>)
    requires k <= |w|
    ensures r.Some? ==> i + |w| < r.value.end <= |s|
    decreases |w| - k
  {
    if k == |w| then (if i + |w| <= |s| then AfterWord(s, i + |w|) else None)
    else if i + k < |s| && LetterMatches(s[i + k], w[k]) then MatchFrom(s, i, w, k + 1)
    else None
  }

  /** The match of the marker pattern that starts at `i`, if any. */
  function MarkerAt(s: string, i: nat, w: string): (r: Option<Marker>)
    ensures r.Some? ==> i < r.value.end <= |s|
  {
    MatchFrom(s, i, w, 0)
  }

  lemma {:induction false} MatchFromWord(s: string, i: nat, w: string, k: nat)
    requires k <= |w| && (forall q | 0 <= q < k :: i + q < |s| && LetterMatches(s[i + q], w[q]))
    ensures MatchFrom(s, i, w, k) == if WordAt(s, i, w) then AfterWord(s, i + |w|) else None
    decreases |w| - k
  {
    if k < |w| {
      if i + k < |s| && LetterMatches(s[i + k], w[k]) {
        MatchFromWord(s, i, w, k + 1);
      } else {
        assert i + k < |s| ==> !LetterMatches(s[i + k], w[k]);
      }
    }
  }

  /** MarkerAt, unfolded: the word, then what follows it. */
  lemma MarkerAtWord(s: string, i: nat, w: string)
    ensures MarkerAt(s, i, w) == if WordAt(s, i, w) then AfterWord(s, i + |w|) else None
  {
    MatchFromWord(s, i, w, 0);
  }

  /** A match MarkerAt reports is a match of the pattern, with the digit run taken whole. */
  lemma MarkerAtSound(s: string, i: nat, w: string)
    requires MarkerAt(s, i, w).Some?
    ensures var mk := MarkerAt(s, i, w).value;
      exists m :: Shape(s, i, w, m, mk.end)
        && (mk.end == |s| || !IsDigit(s[mk.end]))
        && mk.value == DigitsValue(s[m + 1..mk.end])
  {
    MarkerAtWord(s, i, w);
    var j := i + |w|;
    var sp := SpaceRun(s, j);
    assert Shape(s, i, w, j + sp, MarkerAt(s, i, w).value.end);
  }

  /** Wherever the pattern matches at `i`, MarkerAt finds the match. */
  lemma MarkerAtComplete(s: string, i: nat, w: string, m: nat, e: nat)
    requires Shape(s, i, w, m, e)
    ensures MarkerAt(s, i, w).Some?
  {
    MarkerAtWord(s, i, w);
    var j := i + |w|;
    SpaceRunExact(s, j, m);
    DigitRunCovers(s, m + 1, e);
  }

  /** No match of the pattern starts strictly inside another one. */
  lemma MarkersDisjoint(s: string, i: nat, w: string, p: nat)
    requires MarkerWord(w)
    requires MarkerAt(s, i, w).Some? && i < p < MarkerAt(s, i, w).value.end
    ensures MarkerAt(s, p, w).None?
  {
    MarkerAtSound(s, i, w);
    var e := MarkerAt(s, i, w).value.end;
    var m: nat :| Shape(s, i, w, m, e);
    MarkerAtWord(s, p, w);
    if WordAt(s, p, w) {
      assert LetterMatches(s[p + 0], w[0]);
      if p < i + |w| {
        assert LetterMatches(s[i + (p - i)], w[p - i]);
        LetterMatchesOne(s[p], w[0], w[p - i]);
        assert false;
      } else {
        assert false;
      }
    }
  }

  // ------------------------------------------------------------- search and finditer

  /**
   * `re.search` from `i`: the number named by the leftmost match that
   * starts at or after `i`.
   */
  function SearchFrom(s: string, w: string, i: nat): Option<nat>
    decreases |s| + 1 - i
  {
    if i > |s| then None
    else match MarkerAt(s, i, w)
      case Some(mk) => Some(mk.value)
      case None => SearchFrom(s, w, i + 1)
  }

  /** SearchFrom reports the leftmost match; when it reports none there is none. */
  lemma {:induction false} SearchFromLeftmost(s: string, w: string, i: nat)
    ensures var r := SearchFrom(s, w, i);
      && (r.Some? ==> exists k | i <= k <= |s| ::
            && MarkerAt(s, k, w).Some? && MarkerAt(s, k, w).value.value == r.value
            && forall j | i <= j < k :: MarkerAt(s, j, w).None?)
      && (r.None? ==> forall k | i <= k :: MarkerAt(s, k, w).None?)
    decreases |s| + 1 - i
  {
    if i <= |s| && MarkerAt(s, i, w).None? {
      SearchFromLeftmost(s, w, i + 1);
      if SearchFrom(s, w, i).Some? {
        var k :| i + 1 <= k <= |s| && MarkerAt(s, k, w).Some? && MarkerAt(s, k, w).value.value == SearchFrom(s, w, i).value
          && forall j | i + 1 <= j < k :: MarkerAt(s, j, w).None?;
        assert forall j | i <= j < k :: MarkerAt(s, j, w).None?;
      }
    }
  }

  /** `re.search(r"depends\s+#(\d+)", note, re.IGNORECASE)`: the number of the first depends marker. */
  function DependsIn(note: string): Option<nat> {
    SearchFrom(note, DependsWord, 0)
  }

  /** `re.finditer` from `i`: the numbers of the successive non-overlapping matches, in order. */
  function Markers(s: string, w: string, i: nat): seq<nat>
    decreases |s| + 1 - i
  {
    if i > |s| then []
    else match MarkerAt(s, i, w)
      case Some(mk) => [mk.value] + Markers(s, w, mk.end)
      case None => Markers(s, w, i + 1)
  }

  /** The numbers of every match of the pattern anywhere at or after `i`. */
  function Elements(xs: seq<nat>): set<nat> {
    set x | x in xs
  }

  function AllMatches(s: string, w: string, i: nat): set<nat> {
    set k | i <= k <= |s| && MarkerAt(s, k, w).Some? :: MarkerAt(s, k, w).value.value
  }

  /** finditer's left-to-right, non-overlapping scan reports every match there is. */
  lemma {:induction false} MarkersAreAllMatches(s: string, w: string, i: nat)
    requires MarkerWord(w)
    ensures Elements(Markers(s, w, i)) == AllMatches(s, w, i)
    decreases |s| + 1 - i
  {
    if i > |s| {
    } else if MarkerAt(s, i, w).Some? {
      var mk := MarkerAt(s, i, w).value;
      MarkersAreAllMatches(s, w, mk.end);
      forall k | i < k < mk.end
        ensures MarkerAt(s, k, w).None?
      {
        MarkersDisjoint(s, i, w, k);
      }
      assert AllMatches(s, w, i) == {mk.value} + AllMatches(s, w, mk.end);
    } else {
      MarkersAreAllMatches(s, w, i + 1);
      assert AllMatches(s, w, i) == AllMatches(s, w, i + 1);
    }
  }

  // ------------------------------------------------------------- parse_dependencies

  /**
   * The first note, in list order, for which `find` reports something, and
   * what it reports there.
   */
  function FirstFound(notes: seq<string>, find: string -> Option<nat>): Option<nat> {
    if notes == [] then None
    else
      var before := FirstFound(notes[..|notes| - 1], find);
      if before.Some? then before else find(notes[|notes| - 1])
  }

  lemma {:induction false} FirstFoundFirst(notes: seq<string>, find: string -> Option<nat>)
    ensures FirstFound(notes, find).Some? <==> exists k | 0 <= k < |notes| :: find(notes[k]).Some?
    ensures FirstFound(notes, find).Some? ==> exists k | 0 <= k < |notes| ::
      find(notes[k]) == FirstFound(notes, find) && forall j | 0 <= j < k :: find(notes[j]).None?
  {
    if notes != [] {
      var init := notes[..|notes| - 1];
      var last := |notes| - 1;
      FirstFoundFirst(init, find);
      if FirstFound(init, find).Some? {
        var k :| 0 <= k < |init| && find(init[k]) == FirstFound(init, find)
          && forall j | 0 <= j < k :: find(init[j]).None?;
        assert notes[k] == init[k];
        assert forall j | 0 <= j < k :: notes[j] == init[j];
      } else {
        assert forall k | 0 <= k < last :: notes[k] == init[k];
        assert forall k | 0 <= k < last :: find(notes[k]).None?;
      }
    }
  }

  /** The depends marker that wins: the first note, in list order, that has one. */
  function FirstDepends(notes: seq<string>): Option<nat> {
    FirstFound(notes, DependsIn)
  }

  /** Every under marker of every note. */
  function UnderIds(notes: seq<string>): set<nat> {
    if notes == [] then {}
    else UnderIds(notes[..|notes| - 1]) + Elements(Markers(notes[|notes| - 1], UnderWord, 0))
  }

  /** FirstDepends names the marker of the first note that has one; later markers are ignored. */
  lemma FirstDependsFirst(notes: seq<string>)
    ensures FirstDepends(notes).Some? <==> exists k | 0 <= k < |notes| :: DependsIn(notes[k]).Some?
    ensures FirstDepends(notes).Some? ==> exists k | 0 <= k < |notes| ::
      DependsIn(notes[k]) == FirstDepends(notes) && forall j | 0 <= j < k :: DependsIn(notes[j]).None?
  {
    FirstFoundFirst(notes, DependsIn);
  }

  /** An id is under-marked exactly when some note has an `under` match naming it. */
  lemma {:induction false} UnderIdsAllMatches(notes: seq<string>, x: nat)
    ensures x in UnderIds(notes) <==> exists k | 0 <= k < |notes| :: x in AllMatches(notes[k], UnderWord, 0)
  {
    UnderIsMarkerWord();
    if notes != [] {
      var init := notes[..|notes| - 1];
      UnderIdsAllMatches(init, x);
      MarkersAreAllMatches(notes[|notes| - 1], UnderWord, 0);
      assert forall k | 0 <= k < |init| :: init[k] == notes[k];
    }
  }

  /**
   * `parse_dependencies`: the first depends marker and the set of all
   * under markers, one note after the other.
   */
  method ParseDependencies(notes: seq<string>) returns (dependsOn: Option<nat>, underIds: set<nat>)
    ensures dependsOn == FirstDepends(notes)
    ensures underIds == UnderIds(notes)
  {
    dependsOn := None;
    underIds := {};
    for n := 0 to |notes|
      invariant dependsOn == FirstDepends(notes[..n])
      invariant underIds == UnderIds(notes[..n])
    {
      var note := notes[n];
      var found := DependsIn(note);
      if found.Some? && dependsOn.None? {
        dependsOn := found;
      }
      var matches := Markers(note, UnderWord, 0);
      ghost var before := underIds;
      for k := 0 to |matches|
        invariant underIds == before + Elements(matches[..k])
      {
        assert matches[..k + 1] == matches[..k] + [matches[k]];
        underIds := underIds + {matches[k]};
      }
      assert matches[..|matches|] == matches;
      assert notes[..n + 1][..n] == notes[..n];
    }
    assert notes[..|notes|] == notes;
  }

  lemma NoNotes()
    ensures FirstDepends([]) == None && UnderIds([]) == {}
  {
  }

  // ------------------------------------------------------------- display

  /** `m` is the least element of `s`. */
  predicate IsLeast(m: nat, s: set<nat>) {
    m in s && forall x | x in s :: m <= x
  }

  lemma {:induction false} SetHasMin(s: set<nat>)
    requires s != {}
    ensures exists m :: IsLeast(m, s)
    decreases |s|
  {
    var y :| y in s;
    var least := y;
    if s != {y} {
      SetHasMin(s - {y});
      var m :| IsLeast(m, s - {y});
      least := if y < m then y else m;
    }
    forall x | x in s
      ensures least <= x
    {
      if x != y {
        assert x in s - {y};
      }
    }
    assert IsLeast(least, s);
  }

  /** `min()` of a non-empty set. */
  function SetMin(s: set<nat>): (m: nat)
    requires s != {}
    ensures IsLeast(m, s)
  {
    SetHasMin(s);
    var m :| IsLeast(m, s);
    m
  }

  datatype PrefixType = Blocked | UnderParent

  /** The dictionary `get_dependency_display_info` returns. */
  datatype DisplayInfo = DisplayInfo(
    isBlocked: bool,
    dependsOn: Option<nat>,
    underIds: set<nat>,
    displayPrefix: Option<string>,
    prefixType: Option<PrefixType>)

  /**
   * A depends marker takes precedence and shows `N!`; otherwise the least
   * parent shows `N>`; otherwise there is no prefix.
   */
  function GetDisplayInfo(taskId: int, notes: seq<string>): (r: DisplayInfo)
    ensures r.dependsOn == FirstDepends(notes) && r.underIds == UnderIds(notes)
    ensures r.isBlocked <==> r.dependsOn.Some?
    ensures r.isBlocked <==> r.prefixType == Some(Blocked)
    ensures r.isBlocked ==> r.displayPrefix == Some(NatToString(r.dependsOn.value) + "!")
    ensures r.prefixType == Some(UnderParent) <==> !r.isBlocked && r.underIds != {}
    ensures r.prefixType == Some(UnderParent) ==> exists p | p in r.underIds ::
      (forall x | x in r.underIds :: p <= x) && r.displayPrefix == Some(NatToString(p) + ">")
    ensures r.prefixType.None? <==> r.displayPrefix.None?
  {
    var dependsOn := FirstDepends(notes);
    var underIds := UnderIds(notes);
    if dependsOn.Some? then
      DisplayInfo(true, dependsOn, underIds, Some(NatToString(dependsOn.value) + "!"), Some(Blocked))
    else if underIds != {} then
      var parent := SetMin(underIds);
      DisplayInfo(false, None, underIds, Some(NatToString(parent) + ">"), Some(UnderParent))
    else
      DisplayInfo(false, None, {}, None, None)
  }

  // ------------------------------------------------------------- count_children

  /**
   * A task with truthy notes whose under or depends markers name `taskId`.
   * `None` stands for a task without a `notes` attribute or with no notes.
   */
  predicate IsChild(taskId: int, notes: Option<seq<string>>) {
    && notes.Some? && notes.value != []
    && (taskId in UnderIds(notes.value) || (FirstDepends(notes.value).Some? && FirstDepends(notes.value).value == taskId))
  }

  /** The positions in `xs` whose element satisfies `p`. */
  function Positions<T>(xs: seq<T>, p: T -> bool): set<nat> {
    set k | 0 <= k < |xs| && p(xs[k])
  }

  lemma PositionsStep<T>(xs: seq<T>, p: T -> bool, i: nat)
    requires i < |xs|
    ensures |Positions(xs[..i + 1], p)| == |Positions(xs[..i], p)| + (if p(xs[i]) then 1 else 0)
  {
    var before := Positions(xs[..i], p);
    assert forall k | 0 <= k < i :: xs[..i + 1][k] == xs[..i][k];
    assert i !in before;
    if p(xs[i]) {
      assert Positions(xs[..i + 1], p) == before + {i};
    } else {
      assert Positions(xs[..i + 1], p) == before;
    }
  }

  /** The positions of the child tasks. */
  function Children(taskId: int, tasks: seq<Option<seq<string>>>): set<nat> {
    Positions(tasks, ChildOf(taskId))
  }

  function ChildOf(taskId: int): Option<seq<string>> -> bool {
    notes => IsChild(taskId, notes)
  }

  /** `count_children`: how many tasks are children of `taskId`, each counted once. */
  method CountChildren(taskId: int, tasks: seq<Option<seq<string>>>) returns (count: nat)
    ensures count == |Children(taskId, tasks)| && count <= |tasks|
  {
    count := 0;
    for i := 0 to |tasks|
      invariant count == |Children(taskId, tasks[..i])| && count <= i
    {
      PositionsStep(tasks, ChildOf(taskId), i);
      var notes := tasks[i];
      if notes.Some? && notes.value != [] {
        var _, underIds := ParseDependencies(notes.value);
        var dependsOn, _ := ParseDependencies(notes.value);
        if taskId in underIds || (dependsOn.Some? && dependsOn.value == taskId) {
          count := count + 1;
        }
      }
    }
    assert tasks[..|tasks|] == tasks;
  }
}
