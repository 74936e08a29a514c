/**
 * Reminder expressions (`dolist/reminder_parser.py`): `today`, `tomorrow`,
 * `next <unit>`, `<number> <unit>`, each optionally followed by `repeat`;
 * the human-readable rendering of a reminder time and of the time left until it.
 * The current time, which the program reads from the clock, is a parameter.
 */
module ReminderParser {
  import opened Wrappers
  import opened Text
  import opened Calendar

  datatype Unit = Seconds | Minutes | Hours | Days | Weeks | Months | Quarters | Years | Decades

  /** The singular English name of a unit; its canonical spelling adds an `s`. */
  function UnitWord(u: Unit): string {
    match u
    case Seconds => "second"
    case Minutes => "minute"
    case Hours => "hour"
    case Days => "day"
    case Weeks => "week"
    case Months => "month"
    case Quarters => "quarter"
    case Years => "year"
    case Decades => "decade"
  }

  function CanonicalName(u: Unit): string {
    UnitWord(u) + "s"
  }

  /** Every spelling `normalize_unit` accepts for a unit, canonical name first. */
  function Spellings(u: Unit): set<string> {
    match u
    case Seconds => {"seconds", "sec", "secs", "s", "second"}
    case Minutes => {"minutes", "min", "mins", "m", "minute"}
    case Hours => {"hours", "hr", "hrs", "h", "ho", "hour"}
    case Days => {"days", "d", "day"}
    case Weeks => {"weeks", "w", "wk", "wks", "week"}
    case Months => {"months", "mo", "mon", "mos", "month"}
    case Quarters => {"quarters", "q", "qtr", "quarter"}
    case Years => {"years", "y", "yr", "yrs", "year"}
    case Decades => {"decades", "decade"}
  }

  const Units: seq<Unit> := [Seconds, Minutes, Hours, Days, Weeks, Months, Quarters, Years, Decades]

  /** The first of `us` that `key` spells. */
  function UnitSpelled(key: string, us: seq<Unit>): (r: Option<Unit>)
    ensures r.Some? ==> r.value in us && key in Spellings(r.value)
    ensures r.None? <==> forall i | 0 <= i < |us| :: key !in Spellings(us[i])
  {
    if us == [] then None
    else if key in Spellings(us[0]) then Some(us[0])
    else UnitSpelled(key, us[1..])
  }

  /**
   * `normalize_unit` after lower-casing and stripping: the canonical names,
   * then the abbreviation dictionary, grouped here by the unit they name.
   * Since no spelling names two units, the order of the lookups does not
   * matter.
   */
  function UnitNamed(key: string): Option<Unit> {
    UnitSpelled(key, Units)
  }

  /** `normalize_unit(unit)`. */
  function NormalizeUnit(unit: string): Option<Unit> {
    UnitNamed(Strip(Lower(unit)))
  }

  /**
   * The unit a spelling's first letters point to: minutes and months share
   * `m`, days and decades share `d`, and their second letter tells them apart.
   */
  function Initial(key: string): Option<Unit> {
    if key == [] then None
    else if key[0] == 's' then Some(Seconds)
    else if key[0] == 'h' then Some(Hours)
    else if key[0] == 'w' then Some(Weeks)
    else if key[0] == 'q' then Some(Quarters)
    else if key[0] == 'y' then Some(Years)
    else if key[0] == 'm' then Some(if |key| >= 2 && key[1] == 'o' then Months else Minutes)
    else if key[0] == 'd' then Some(if |key| >= 2 && key[1] == 'e' then Decades else Days)
    else None
  }

  lemma SpellingInitial(key: string, u: Unit)
    requires key in Spellings(u)
    ensures Initial(key) == Some(u)
  {
  }

  /** No spelling names two units. */
  lemma SpellingsDisjoint(key: string, u: Unit, v: Unit)
    requires key in Spellings(u) && key in Spellings(v)
    ensures u == v
  {
    SpellingInitial(key, u);
    SpellingInitial(key, v);
  }

  /** A lower-cased, stripped spelling names `u` exactly when it is one of `u`'s spellings. */
  lemma UnitNamedSpellings(key: string, u: Unit)
    ensures UnitNamed(key) == Some(u) <==> key in Spellings(u)
  {
    var r := UnitNamed(key);
    if key in Spellings(u) {
      assert u in Units;
      SpellingsDisjoint(key, u, r.value);
    }
  }

  /** A spelling no unit lists is rejected, and every unit's canonical and singular names are accepted. */
  lemma NormalizeUnitUnknown(unit: string)
    ensures NormalizeUnit(unit) == None <==> forall u: Unit :: Strip(Lower(unit)) !in Spellings(u)
  {
    var key := Strip(Lower(unit));
    if NormalizeUnit(unit).Some? {
      UnitNamedSpellings(key, NormalizeUnit(unit).value);
    } else {
      forall u: Unit ensures key !in Spellings(u) {
        UnitNamedSpellings(key, u);
      }
    }
  }

  /** Seconds in one unit as the program counts them: a month is 30 days, a quarter 90, a year 365, a decade 3650. */
  function Delta(u: Unit): (n: nat)
    ensures n >= 1
  {
    match u
    case Seconds => 1
    case Minutes => SecondsPerMinute
    case Hours => SecondsPerHour
    case Days => SecondsPerDay
    case Weeks => SecondsPerWeek
    case Months => 30 * SecondsPerDay
    case Quarters => 90 * SecondsPerDay
    case Years => 365 * SecondsPerDay
    case Decades => 3650 * SecondsPerDay
  }

  /** The length of `n` units, in seconds, as `timedelta` computes it for the program. */
  function Span(n: nat, u: Unit): (secs: nat)
    ensures n == 0 <==> secs == 0
  {
    n * Delta(u)
  }

  // ------------------------------------------------------------- the two patterns

  predicate IsWordChar(c: char) { IsAsciiLetter(c) || IsDigit(c) || c == '_' }
  predicate AllWord(s: string) { forall i | 0 <= i < |s| :: IsWordChar(s[i]) }

  /** Length of the longest whitespace prefix. */
  function SpaceRun(s: string): (n: nat)
    ensures n <= |s| && AllSpace(s[..n])
    ensures n < |s| ==> !IsSpace(s[n])
  {
    if s == [] || !IsSpace(s[0]) then 0 else 1 + SpaceRun(s[1..])
  }

  /** Length of the longest prefix of ASCII digits. */
  function DigitRun(s: string): (n: nat)
    ensures n <= |s| && AllDigits(s[..n])
    ensures n < |s| ==> !IsDigit(s[n])
  {
    if s == [] || !IsDigit(s[0]) then 0 else 1 + DigitRun(s[1..])
  }

  lemma {:induction false} SpaceRunExact(ws: string, w: string)
    requires AllSpace(ws) && (w == [] || !IsSpace(w[0]))
    ensures SpaceRun(ws + w) == |ws|
  {
    if ws != [] {
      assert (ws + w)[1..] == ws[1..] + w;
      SpaceRunExact(ws[1..], w);
    } else {
      assert ws + w == w;
    }
  }

  lemma {:induction false} DigitRunExact(ds: string, w: string)
    requires AllDigits(ds) && (w == [] || !IsDigit(w[0]))
    ensures DigitRun(ds + w) == |ds|
  {
    if ds != [] {
      assert (ds + w)[1..] == ds[1..] + w;
      DigitRunExact(ds[1..], w);
    } else {
      assert ds + w == w;
    }
  }

  /** `s` is `next`, at least one whitespace character, and a word of `\w` characters. */
  predicate NextShape(s: string, ws: string, w: string) {
    s == "next" + ws + w && ws != [] && AllSpace(ws) && w != [] && AllWord(w)
  }

  /** `re.match(r'^next\s+(\w+)$', s)`: the captured word, if it matches. */
  function MatchNext(s: string): (m: Option<string>)
    ensures m.Some? ==> m.value != [] && AllWord(m.value) && |m.value| + 5 <= |s|
  {
    if StartsWith(s, "next") then
      var rest := s[4..];
      var n := SpaceRun(rest);
      var w := rest[n..];
      if n > 0 && w != [] && AllWord(w) then Some(w) else None
    else None
  }

  lemma MatchNextSound(s: string)
    requires MatchNext(s).Some?
    ensures var w := MatchNext(s).value; NextShape(s, s[4..|s| - |w|], w)
  {
    var rest := s[4..];
    var n := SpaceRun(rest);
    assert s == "next" + rest[..n] + rest[n..];
  }

  lemma MatchNextComplete(s: string, ws: string, w: string)
    requires NextShape(s, ws, w)
    ensures MatchNext(s) == Some(w)
  {
    assert s[4..] == ws + w;
    SpaceRunExact(ws, w);
    assert s[4..][|ws|..] == w;
  }

  datatype AmountMatch = AmountMatch(digits: string, word: string)

  /** `s` is a run of digits, at least one whitespace character, and a word of ASCII letters. */
  predicate AmountShape(s: string, ds: string, ws: string, w: string) {
    s == ds + ws + w && ds != [] && AllDigits(ds) && ws != [] && AllSpace(ws) && w != [] && AllLetters(w)
  }

  /** `re.match(r'^(\d+)\s+([a-zA-Z]+)$', s)`: the two captured groups, if it matches. */
  function MatchAmount(s: string): (m: Option<AmountMatch>)
    ensures m.Some? ==> m.value.digits != [] && AllDigits(m.value.digits)
    ensures m.Some? ==> m.value.word != [] && AllLetters(m.value.word)
    ensures m.Some? ==> |m.value.digits| + |m.value.word| < |s|
  {
    var n := DigitRun(s);
    var rest := s[n..];
    var k := SpaceRun(rest);
    var w := rest[k..];
    if n > 0 && k > 0 && w != [] && AllLetters(w) then Some(AmountMatch(s[..n], w)) else None
  }

  lemma MatchAmountSound(s: string)
    requires MatchAmount(s).Some?
    ensures var m := MatchAmount(s).value;
      AmountShape(s, m.digits, s[|m.digits|..|s| - |m.word|], m.word)
  {
    var n := DigitRun(s);
    var rest := s[n..];
    var k := SpaceRun(rest);
    assert s == s[..n] + rest[..k] + rest[k..];
  }

  lemma MatchAmountComplete(s: string, ds: string, ws: string, w: string)
    requires AmountShape(s, ds, ws, w)
    ensures MatchAmount(s) == Some(AmountMatch(ds, w))
  {
    assert s == ds + (ws + w);
    DigitRunExact(ds, ws + w);
    assert s[|ds|..] == ws + w;
    SpaceRunExact(ws, w);
    assert s[|ds|..][|ws|..] == w;
    assert s[..|ds|] == ds;
  }

  // ------------------------------------------------------------- parse_reminder

  /** The triple the program returns: a time (with the repeat interval, if any), an error message, or the OverflowError `datetime` raises past year 9999. */
  datatype Parse = Parsed(at: Instant, repeat: Option<string>) | Failed(message: string) | Overflow

  /** A reminder parser taking the text and the time it reads as now; `ParseReminder` is the one the program uses. */
  type Parser = (string, Instant) -> Parse

  function Later(base: Instant, secs: nat, repeat: Option<string>): (r: Parse)
    ensures r.Parsed? <==> base + secs <= MaxInstant
    ensures r.Parsed? ==> r.at == base + secs && r.repeat == repeat
    ensures !r.Parsed? ==> r == Overflow
  {
    if base + secs <= MaxInstant then Parsed(base + secs, repeat) else Overflow
  }

  /** The longest decimal string Python's `int()` converts by default (`sys.get_int_max_str_digits()`). */
  const MaxStrDigits: nat := 4300

  /** `f"Invalid number: {e}"` for the ValueError `int()` raises on a string of `n` digits past the limit. */
  function InvalidNumber(n: nat): string {
    "Invalid number: Exceeds the limit (4300 digits) for integer string conversion: value has "
      + NatToString(n) + " digits; use sys.set_int_max_str_digits() to increase the limit"
  }

  /**
   * The `<number> <unit>` branch once the pattern matched: `int()` fails on a
   * number past the limit before the unit is looked at.
   */
  function Amount(digits: string, word: string, repeat: Option<string>, base: Instant): (r: Parse)
    requires AllDigits(digits)
    ensures r.Parsed? ==> base <= r.at && r.repeat == repeat
    ensures r.Failed? <==> |digits| > MaxStrDigits || NormalizeUnit(word).None?
  {
    if |digits| > MaxStrDigits then Failed(InvalidNumber(|digits|))
    else
      match NormalizeUnit(word)
      case None => Failed("Unknown time unit: " + word)
      case Some(u) => Later(base, Span(DigitsValue(digits), u), repeat)
  }

  /** What the program does with the lower-cased, stripped text once the `repeat` suffix is gone. */
  function Interpret(text: string, repeat: Option<string>, base: Instant): (r: Parse)
    ensures r.Parsed? ==> base <= r.at && r.repeat == repeat
  {
    if text == "today" then
      var today := At(DayOf(base), 15 * SecondsPerHour);
      if today > base then Parsed(today, repeat) else Later(today, SecondsPerDay, repeat)
    else if text == "tomorrow" then
      Later(At(DayOf(base), 9 * SecondsPerHour), SecondsPerDay, repeat)
    else
      match MatchNext(text)
      case Some(word) =>
        var u := NormalizeUnit(word);
        if u.Some? && u.value != Seconds && u.value != Minutes then Later(base, Delta(u.value), repeat)
        else Failed("Unknown unit in 'next " + word + "'")
      case None =>
        match MatchAmount(text)
        case Some(AmountMatch(digits, word)) => Amount(digits, word, repeat, base)
        case None => Failed("Could not parse reminder: '" + text + "'")
  }

  /** `parse_reminder(text, base)`. */
  function ParseReminder(text: string, base: Instant): (r: Parse)
    ensures r.Parsed? ==> base <= r.at
  {
    if text == "" then Failed("Reminder text is empty")
    else
      var t := Lower(Strip(text));
      if EndsWith(t, " repeat") then
        var body := Strip(t[..|t| - 7]);
        Interpret(body, Some(body), base)
      else Interpret(t, None, base)
  }

  /** The text after lower-casing and stripping, as `parse_reminder` works on it. */
  function Normal(text: string): string {
    Lower(Strip(text))
  }

  lemma NormalStripped(text: string)
    ensures IsLowered(Normal(text))
    ensures Normal(text) == [] || (!IsSpace(Normal(text)[0]) && !IsSpace(Normal(text)[|Normal(text)| - 1]))
  {
    LowerIsLowered(Strip(text));
    LowerKeepsSpace(Strip(text));
  }

  lemma NormalIdempotent(text: string)
    ensures Normal(Normal(text)) == Normal(text)
  {
    NormalStripped(text);
    StripStripped(Normal(text));
    LoweredFixed(Normal(text));
  }

  /** A time comes with a repeat interval exactly when the text ends in ` repeat`; the interval is the non-empty text before it. */
  lemma ParseRepeatTag(text: string, base: Instant)
    requires ParseReminder(text, base).Parsed?
    ensures var r := ParseReminder(text, base); var t := Normal(text);
      (r.repeat.Some? <==> EndsWith(t, " repeat"))
      && (r.repeat.Some? ==> r.repeat.value == Strip(t[..|t| - 7]) && r.repeat.value != [])
  {
    var t := Normal(text);
    if EndsWith(t, " repeat") {
      NormalStripped(text);
      var prefix := t[..|t| - 7];
      assert prefix[0] == t[0];
      StripKeepsFirst(prefix);
    }
  }

  /** Case and surrounding whitespace never change the outcome of non-blank text. */
  lemma ParseIgnoresCaseAndSpace(text: string, base: Instant)
    requires Strip(text) != []
    ensures ParseReminder(Normal(text), base) == ParseReminder(text, base)
  {
    var t := Normal(text);
    NormalIdempotent(text);
    assert text != [] && t != [];
    assert Lower(Strip(t)) == Lower(Strip(text));
  }

  /** Text that is only whitespace passes the emptiness test and fails as an unparseable empty expression. */
  lemma ParseBlank(text: string, base: Instant)
    requires text != [] && AllSpace(text)
    ensures ParseReminder(text, base) == Failed("Could not parse reminder: ''")
  {
    StripAllSpace(text);
  }

  /** A word that is not `repeat`, after a whitespace character, never ends the text with ` repeat`. */
  lemma NotRepeatEnd(p: string, w: string)
    requires w != [] && NoSpace(w) && w != "repeat"
    requires p != [] && IsSpace(p[|p| - 1])
    ensures !EndsWith(p + w, " repeat")
  {
    var s := p + w;
    if |w| >= 7 {
      // a letter of the word where ` repeat` has its space
      assert s[|s| - 7] == w[|w| - 7];
    } else if |w| == 6 {
      assert s[|s| - 6..] == w;
    } else if |s| >= 7 {
      // the space before the word where ` repeat` has a letter
      var i := |s| - |w| - 1;
      assert s[i] == p[|p| - 1];
      assert s[|s| - 7..][6 - |w|] == s[i];
      assert forall k | 1 <= k < 7 :: !IsSpace(" repeat"[k]);
    }
  }

  lemma WordNoSpace(w: string)
    requires AllWord(w)
    ensures NoSpace(w)
  {
  }

  lemma LettersNoSpace(w: string)
    requires AllLetters(w)
    ensures NoSpace(w)
  {
  }

  /** `today` is the first 15:00 strictly after the base time. */
  lemma ParseToday(text: string, base: Instant)
    requires Normal(text) == "today"
    ensures var r := ParseReminder(text, base);
      if DayOf(base) < LastDay || SecondOfDay(base) < 15 * SecondsPerHour then
        r.Parsed? && r.repeat == None && SecondOfDay(r.at) == 15 * SecondsPerHour
        && base < r.at <= base + SecondsPerDay
      else r == Overflow
  {
    var t := Normal(text);
    assert !EndsWith(t, " repeat");
    ParseUntagged(text, base);
    InterpretToday(t, base);
  }

  lemma InterpretToday(t: string, base: Instant)
    requires t == "today"
    ensures var r := Interpret(t, None, base);
      if DayOf(base) < LastDay || SecondOfDay(base) < 15 * SecondsPerHour then
        r.Parsed? && r.repeat == None && SecondOfDay(r.at) == 15 * SecondsPerHour
        && base < r.at <= base + SecondsPerDay
      else r == Overflow
  {
  }

  /** `tomorrow` is 09:00 on the day after the base day. */
  lemma ParseTomorrow(text: string, base: Instant)
    requires Normal(text) == "tomorrow"
    ensures var r := ParseReminder(text, base);
      if DayOf(base) < LastDay then
        r.Parsed? && r.repeat == None && DayOf(r.at) == DayOf(base) + 1
        && SecondOfDay(r.at) == 9 * SecondsPerHour
      else r == Overflow
  {
    var t := Normal(text);
    assert !EndsWith(t, " repeat");
    ParseUntagged(text, base);
    InterpretTomorrow(t, base);
  }

  lemma InterpretTomorrow(t: string, base: Instant)
    requires t == "tomorrow"
    ensures var r := Interpret(t, None, base);
      if DayOf(base) < LastDay then
        r.Parsed? && r.repeat == None && DayOf(r.at) == DayOf(base) + 1
        && SecondOfDay(r.at) == 9 * SecondsPerHour
      else r == Overflow
  {
  }

  /** `next <unit>` adds one unit for hours and longer units and rejects the rest. */
  lemma ParseNext(text: string, base: Instant, ws: string, w: string)
    requires NextShape(Normal(text), ws, w) && w != "repeat"
    ensures var u := NormalizeUnit(w);
      ParseReminder(text, base) ==
        if u.Some? && u.value != Seconds && u.value != Minutes then Later(base, Delta(u.value), None)
        else Failed("Unknown unit in 'next " + w + "'")
  {
    var t := Normal(text);
    WordNoSpace(w);
    assert t == ("next" + ws) + w;
    NotRepeatEnd("next" + ws, w);
    ParseUntagged(text, base);
    InterpretNext(t, None, base, ws, w);
  }

  lemma InterpretNext(t: string, repeat: Option<string>, base: Instant, ws: string, w: string)
    requires NextShape(t, ws, w)
    ensures var u := NormalizeUnit(w);
      Interpret(t, repeat, base) ==
        if u.Some? && u.value != Seconds && u.value != Minutes then Later(base, Delta(u.value), repeat)
        else Failed("Unknown unit in 'next " + w + "'")
  {
    assert t != "today" && t != "tomorrow" by {
      assert t[0] == 'n' && |t| > 5;
    }
    MatchNextComplete(t, ws, w);
  }

  /** Text without the ` repeat` tag is interpreted whole, with no repeat interval. */
  lemma ParseUntagged(text: string, base: Instant)
    requires text != [] && !EndsWith(Normal(text), " repeat")
    ensures ParseReminder(text, base) == Interpret(Normal(text), None, base)
  {
  }

  /** The repeat interval is only carried along: it never changes whether or when an expression gives a time. */
  lemma InterpretRepeatFree(text: string, repeat: Option<string>, base: Instant)
    ensures var p := Interpret(text, None, base);
      Interpret(text, repeat, base) == if p.Parsed? then p.(repeat := repeat) else p
  {
  }

  /** Text ending in ` repeat` is interpreted as the stripped text before it, which becomes the interval. */
  lemma ParseTagged(text: string, base: Instant)
    requires text != [] && EndsWith(Normal(text), " repeat")
    ensures var t := Normal(text); var body := Strip(t[..|t| - 7]); var p := Interpret(body, None, base);
      ParseReminder(text, base) == if p.Parsed? then p.(repeat := Some(body)) else p
  {
    var t := Normal(text);
    InterpretRepeatFree(Strip(t[..|t| - 7]), Some(Strip(t[..|t| - 7])), base);
  }

  /**
   * `<body> repeat` schedules what `<body>` alone schedules, or fails the same
   * way, when the body is not empty and is not itself tagged.
   */
  lemma ParseTaggedAsBody(text: string, base: Instant)
    requires text != [] && EndsWith(Normal(text), " repeat")
    requires var t := Normal(text); var body := Strip(t[..|t| - 7]);
      body != [] && !EndsWith(body, " repeat")
    ensures var t := Normal(text); var body := Strip(t[..|t| - 7]); var p := ParseReminder(body, base);
      ParseReminder(text, base) == if p.Parsed? then p.(repeat := Some(body)) else p
  {
    var t := Normal(text);
    var body := Strip(t[..|t| - 7]);
    BodyNormal(text);
    ParseTagged(text, base);
    ParseUntagged(body, base);
  }

  lemma InterpretAmount(t: string, repeat: Option<string>, base: Instant, ds: string, ws: string, w: string)
    requires AmountShape(t, ds, ws, w)
    ensures var u := NormalizeUnit(w);
      Interpret(t, repeat, base) ==
        if |ds| > MaxStrDigits then Failed(InvalidNumber(|ds|))
        else if u.Some? then Later(base, Span(DigitsValue(ds), u.value), repeat)
        else Failed("Unknown time unit: " + w)
  {
    AmountNotOther(t, ds, ws, w);
    MatchAmountComplete(t, ds, ws, w);
  }

  /** A text starting with a digit is neither `today`, `tomorrow` nor a `next` expression. */
  lemma AmountNotOther(t: string, ds: string, ws: string, w: string)
    requires AmountShape(t, ds, ws, w)
    ensures t != "today" && t != "tomorrow" && MatchNext(t) == None
  {
    assert t[0] == ds[0];
    assert !StartsWith(t, "next");
  }

  /**
   * `<number> <unit>` adds that many units, and an unknown unit is reported by
   * name; a number longer than `int()` converts is reported as invalid first,
   * whatever the unit.
   */
  lemma ParseAmount(text: string, base: Instant, ds: string, ws: string, w: string)
    requires AmountShape(Normal(text), ds, ws, w) && w != "repeat"
    ensures var u := NormalizeUnit(w);
      ParseReminder(text, base) ==
        if |ds| > MaxStrDigits then Failed(InvalidNumber(|ds|))
        else if u.Some? then Later(base, Span(DigitsValue(ds), u.value), None)
        else Failed("Unknown time unit: " + w)
  {
    var t := Normal(text);
    LettersNoSpace(w);
    assert t == (ds + ws) + w;
    NotRepeatEnd(ds + ws, w);
    ParseUntagged(text, base);
    InterpretAmount(t, None, base, ds, ws, w);
  }

  /** Text of none of the four forms is reported back, normalised, as unparseable. */
  lemma ParseUnrecognised(text: string, base: Instant)
    requires text != [] && !EndsWith(Normal(text), " repeat")
    requires Normal(text) != "today" && Normal(text) != "tomorrow"
    requires MatchNext(Normal(text)) == None && MatchAmount(Normal(text)) == None
    ensures ParseReminder(text, base) == Failed("Could not parse reminder: '" + Normal(text) + "'")
  {
  }

  /** A number glued to its unit, as in `2h`, is not an amount: the text is reported as unparseable. */
  lemma ParseGluedAmount(text: string, base: Instant, ds: string, w: string)
    requires Normal(text) == ds + w && ds != [] && AllDigits(ds) && w != [] && AllLetters(w)
    ensures ParseReminder(text, base) == Failed("Could not parse reminder: '" + Normal(text) + "'")
  {
    var t := Normal(text);
    GluedNotRepeat(t, ds, w);
    ParseUntagged(text, base);
    InterpretGlued(t, None, base, ds, w);
  }

  lemma GluedNotRepeat(t: string, ds: string, w: string)
    requires t == ds + w && AllDigits(ds) && AllLetters(w)
    ensures !EndsWith(t, " repeat")
  {
    if |t| >= 7 {
      assert IsDigit(t[|t| - 7]) || IsAsciiLetter(t[|t| - 7]);
    }
  }

  lemma InterpretGlued(t: string, repeat: Option<string>, base: Instant, ds: string, w: string)
    requires t == ds + w && ds != [] && AllDigits(ds) && w != [] && AllLetters(w)
    ensures Interpret(t, repeat, base) == Failed("Could not parse reminder: '" + t + "'")
  {
    assert t[0] == ds[0];
    assert t != "today" && t != "tomorrow" && !StartsWith(t, "next");
    DigitRunExact(ds, w);
    assert t[|ds|..] == w;
    assert SpaceRun(w) == 0;
  }

  /** The interval string returned with a ` repeat` suffix, parsed again, gives a fresh schedule of the same length. */
  lemma RepeatReparses(text: string, base: Instant, base2: Instant)
    requires ParseReminder(text, base).Parsed? && ParseReminder(text, base).repeat.Some?
    ensures var r := ParseReminder(text, base);
      var again := ParseReminder(r.repeat.value, base2);
      again.Failed? == false && (again.Parsed? ==> again.repeat == None)
  {
    var t := Normal(text);
    ParseRepeatTag(text, base);
    var body := Strip(t[..|t| - 7]);
    assert ParseReminder(text, base) == Interpret(body, Some(body), base);
    BodyNormal(text);
    NotRepeatInterpreted(body, base);
    assert ParseReminder(body, base2) == Interpret(body, None, base2);
    InterpretFails(body, Some(body), base);
    InterpretFails(body, None, base2);
  }

  /** The body left once ` repeat` is removed is already lower-cased and stripped. */
  lemma BodyNormal(text: string)
    requires |Normal(text)| >= 7
    ensures var t := Normal(text); Normal(Strip(t[..|t| - 7])) == Strip(t[..|t| - 7])
  {
    var t := Normal(text);
    NormalStripped(text);
    var body := Strip(t[..|t| - 7]);
    assert IsLowered(body) by {
      TrimLeftLowered(t[..|t| - 7]);
    }
    StripIdempotent(t[..|t| - 7]);
    LoweredFixed(body);
  }

  lemma TrimLeftLowered(s: string)
    requires IsLowered(s)
    ensures IsLowered(Strip(s))
  {
    var l := TrimLeft(s);
    assert IsLowered(l) by {
      forall i | 0 <= i < |l| ensures !IsUpperLetter(l[i]) {
        assert l[i] == s[|s| - |l| + i];
      }
    }
  }

  lemma RepeatIsNoUnit(w: string)
    requires w == "repeat"
    ensures NormalizeUnit(w) == None
  {
    LoweredFixed(w);
    StripStripped(w);
    forall i | 0 <= i < |Units|
      ensures w !in Spellings(Units[i])
    {
    }
  }

  /** A `next` expression with a known unit does not end with ` repeat`. */
  lemma NextNotRepeat(body: string)
    requires MatchNext(body).Some? && NormalizeUnit(MatchNext(body).value).Some?
    ensures !EndsWith(body, " repeat")
  {
    var w := MatchNext(body).value;
    var ws := body[4..|body| - |w|];
    MatchNextSound(body);
    WordNoSpace(w);
    assert body == ("next" + ws) + w;
    var rep := "repeat";
    RepeatIsNoUnit(rep);
    NotRepeatEnd("next" + ws, w);
  }

  /** An amount with a known unit does not end with ` repeat`. */
  lemma AmountNotRepeat(body: string)
    requires MatchAmount(body).Some? && NormalizeUnit(MatchAmount(body).value.word).Some?
    ensures !EndsWith(body, " repeat")
  {
    var m := MatchAmount(body).value;
    var ws := body[|m.digits|..|body| - |m.word|];
    MatchAmountSound(body);
    LettersNoSpace(m.word);
    assert body == (m.digits + ws) + m.word;
    var rep := "repeat";
    RepeatIsNoUnit(rep);
    NotRepeatEnd(m.digits + ws, m.word);
  }

  /** A body that interprets to a time does not itself end with ` repeat`. */
  lemma NotRepeatInterpreted(body: string, base: Instant)
    requires Interpret(body, Some(body), base).Parsed?
    ensures !EndsWith(body, " repeat")
  {
    InterpretFails(body, Some(body), base);
    if body == "today" || body == "tomorrow" {
    } else if MatchNext(body).Some? {
      NextNotRepeat(body);
    } else {
      AmountNotRepeat(body);
    }
  }

  /** One of the four forms, with a unit that form accepts and, for an amount, a number `int()` converts. */
  predicate Recognised(text: string) {
    || text == "today" || text == "tomorrow"
    || (MatchNext(text).Some? && NormalizeUnit(MatchNext(text).value).Some?
        && NormalizeUnit(MatchNext(text).value).value !in {Seconds, Minutes})
    || (MatchNext(text).None? && MatchAmount(text).Some? && NormalizeUnit(MatchAmount(text).value.word).Some?
        && |MatchAmount(text).value.digits| <= MaxStrDigits)
  }

  /** Whether an expression is rejected depends on the text alone, never on the time or the repeat tag. */
  lemma InterpretFails(text: string, repeat: Option<string>, base: Instant)
    ensures Interpret(text, repeat, base).Failed? <==> !Recognised(text)
  {
    if text == "today" || text == "tomorrow" {
    } else if MatchNext(text).Some? {
    } else if MatchAmount(text).Some? {
    }
  }

  /** A zero amount schedules the reminder at the base time itself. */
  lemma ParseZeroAmount(text: string, base: Instant, ds: string, ws: string, w: string)
    requires AmountShape(Normal(text), ds, ws, w) && w != "repeat"
    requires DigitsValue(ds) == 0 && NormalizeUnit(w).Some?
    ensures ParseReminder(text, base) == if |ds| <= MaxStrDigits then Parsed(base, None) else Failed(InvalidNumber(|ds|))
  {
    ParseAmount(text, base, ds, ws, w);
  }

  // ------------------------------------------------------------- get_time_until

  datatype Countdown = Overdue | In(count: nat, unit: Unit)

  /** The unit after `u` in the countdown scale second < minute < hour < day < week. */
  function Larger(u: Unit): Unit
    requires u in {Seconds, Minutes, Hours, Days}
  {
    match u
    case Seconds => Minutes
    case Minutes => Hours
    case Hours => Days
    case Days => Weeks
  }

  /** The countdown from `now` to `dt`: the largest unit of which one fits, and the whole count of it. */
  function CountdownOf(dt: Instant, now: Instant): (c: Countdown)
    ensures c.Overdue? <==> dt < now
    ensures c.In? ==> c.unit in {Seconds, Minutes, Hours, Days, Weeks}
    ensures c.In? ==> c.count * Delta(c.unit) <= dt - now < (c.count + 1) * Delta(c.unit)
    ensures c.In? && c.unit != Seconds ==> c.count >= 1
    ensures c.In? && c.unit != Weeks ==> dt - now < Delta(Larger(c.unit))
  {
    var d := dt - now;
    if d < 0 then Overdue
    else if d < SecondsPerMinute then In(d, Seconds)
    else if d < SecondsPerHour then In(d / SecondsPerMinute, Minutes)
    else if d < SecondsPerDay then In(d / SecondsPerHour, Hours)
    else if d < SecondsPerWeek then In(d / SecondsPerDay, Days)
    else In(d / SecondsPerWeek, Weeks)
  }

  function CountdownText(c: Countdown): string {
    match c
    case Overdue => "overdue"
    case In(n, u) => "in " + NatToString(n) + " " + UnitWord(u) + (if n != 1 then "s" else "")
  }

  /** `get_time_until(dt)` with the clock reading `now`. */
  function GetTimeUntil(dt: Instant, now: Instant): string {
    CountdownText(CountdownOf(dt, now))
  }

  /** The text is `overdue` exactly for a past time, and ends in a plural `s` exactly when the count is not one. */
  lemma TimeUntilWording(dt: Instant, now: Instant)
    ensures GetTimeUntil(dt, now) == "overdue" <==> dt < now
    ensures dt >= now ==> StartsWith(GetTimeUntil(dt, now), "in ")
    ensures dt >= now ==> (EndsWith(GetTimeUntil(dt, now), "s") <==> CountdownOf(dt, now).count != 1)
  {
    var c := CountdownOf(dt, now);
    if c.In? {
      var s := GetTimeUntil(dt, now);
      assert s[..3] == "in ";
      var w := UnitWord(c.unit);
      assert w[|w| - 1] != 's';
      if c.count == 1 {
        assert s[|s| - 1] == w[|w| - 1];
      } else {
        assert s[|s| - 1] == 's';
      }
    }
  }

  lemma TimeUntilNinetySeconds(now: Instant)
    requires now + 90 <= MaxInstant
    ensures GetTimeUntil(now + 90, now) == "in 1 minute"
  {
    assert NatToString(1) == "1";
  }

  // ------------------------------------------------------------- format_reminder

  datatype Clock = Clock(hour12: nat, minute: nat, pm: bool)

  /** The `%I:%M %p` reading of an instant's time of day. */
  function ClockOf(t: Instant): (c: Clock)
    ensures 1 <= c.hour12 <= 12 && c.minute < 60
    ensures c.hour12 % 12 + (if c.pm then 12 else 0) == Hour(t) && c.minute == Minute(t)
  {
    var h := Hour(t);
    Clock(if h % 12 == 0 then 12 else h % 12, Minute(t), h >= 12)
  }

  function ClockText(c: Clock): string {
    PadNat(c.hour12, 2) + ":" + PadNat(c.minute, 2) + " " + (if c.pm then "PM" else "AM")
  }

  /** Which of the five phrasings `format_reminder` picks. */
  datatype When =
    | Today
    | Tomorrow
    | OnWeekday(weekday: nat)
    | OnDate(month: int, day: int)
    | OnDateOfYear(month: int, day: int, year: int)

  /** The phrasing for `dt` seen at `now`; `now + 1 day` raises OverflowError on 9999-12-31. */
  function ReminderWhen(dt: Instant, now: Instant): Result<When> {
    var day := DayOf(dt);
    var today := DayOf(now);
    if day == today then Ok(Today)
    else if today == LastDay then Err(OverflowError)
    else if day == today + 1 then Ok(Tomorrow)
    else if 0 < day - today <= 7 then Ok(OnWeekday(Weekday(dt)))
    else
      var d := CivilDate(day);
      if d.year == CivilDate(today).year then Ok(OnDate(d.month, d.day))
      else Ok(OnDateOfYear(d.month, d.day, d.year))
  }

  lemma ReminderWhenCases(dt: Instant, now: Instant)
    ensures ReminderWhen(dt, now) == Ok(Today) <==> DayOf(dt) == DayOf(now)
    ensures ReminderWhen(dt, now).Err? <==> DayOf(now) == LastDay && DayOf(dt) != DayOf(now)
    ensures ReminderWhen(dt, now) == Ok(Tomorrow) <==> DayOf(dt) == DayOf(now) + 1
    ensures ReminderWhen(dt, now).Ok? && ReminderWhen(dt, now).value.OnWeekday? <==>
      DayOf(now) + 2 <= DayOf(dt) <= DayOf(now) + 7
    ensures ReminderWhen(dt, now).Ok? && ReminderWhen(dt, now).value.OnWeekday? ==>
      ReminderWhen(dt, now).value.weekday == Weekday(dt)
    ensures ReminderWhen(dt, now).Ok? && ReminderWhen(dt, now).value.OnDate? ==>
      CivilDate(DayOf(dt)) == Date(CivilDate(DayOf(now)).year, ReminderWhen(dt, now).value.month, ReminderWhen(dt, now).value.day)
  {
  }

  /** A reminder already in the past is never phrased as today, tomorrow or a weekday. */
  lemma PastReminderHasDate(dt: Instant, now: Instant)
    requires DayOf(dt) < DayOf(now) < LastDay
    ensures ReminderWhen(dt, now).Ok?
    ensures ReminderWhen(dt, now).value.OnDate? || ReminderWhen(dt, now).value.OnDateOfYear?
  {
  }

  const WeekdayNames: seq<string> := ["Monday", "Tuesday", "Wednesday", "Thursday", "Friday", "Saturday", "Sunday"]
  const MonthNames: seq<string> := ["Jan", "Feb", "Mar", "Apr", "May", "Jun", "Jul", "Aug", "Sep", "Oct", "Nov", "Dec"]

  function WhenText(w: When): string {
    match w
    case Today => "Today"
    case Tomorrow => "Tomorrow"
    case OnWeekday(k) => if k < 7 then WeekdayNames[k] else ""
    case OnDate(m, d) => (if 1 <= m <= 12 then MonthNames[m - 1] else "") + " " + PadNat(if d >= 0 then d else 0, 2)
    case OnDateOfYear(m, d, y) =>
      (if 1 <= m <= 12 then MonthNames[m - 1] else "") + " " + PadNat(if d >= 0 then d else 0, 2)
      + ", " + PadNat(if y >= 0 then y else 0, 4)
  }

  /** `format_reminder(dt)` with the clock reading `now`, in the C locale. */
  function FormatReminder(dt: Instant, now: Instant): (r: Result<string>)
    ensures r.Err? <==> ReminderWhen(dt, now).Err?
    ensures r.Ok? ==> EndsWith(r.value, " at " + ClockText(ClockOf(dt)))
  {
    match ReminderWhen(dt, now)
    case Err(e) => Err(e)
    case Ok(w) =>
      var head := WhenText(w);
      var tail := " at " + ClockText(ClockOf(dt));
      assert (head + tail)[|head + tail| - |tail|..] == tail;
      Ok(head + tail)
  }
}
