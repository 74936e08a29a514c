/**
 * The Python string operations the modelled code relies on: whitespace as
 * `str.isspace` sees it, `strip`, `split`, `lower`/`upper` (ASCII letters
 * only), `join`, `in`, `startswith`/`endswith`, decimal rendering of
 * integers and `int(str)`.
 */
module Text {
  import opened Wrappers

  /** The characters Python's `str.isspace` (and `\s` in a `re` pattern) accepts. */
  predicate IsSpace(c: char) {
    || c == ' ' || '\t' <= c <= '\r' || '\U{1C}' <= c <= '\U{1F}' || c == '\U{85}' || c == '\U{A0}'
    || c == '\U{1680}' || '\U{2000}' <= c <= '\U{200A}' || c == '\U{2028}' || c == '\U{2029}'
    || c == '\U{202F}' || c == '\U{205F}' || c == '\U{3000}'
  }

  predicate IsDigit(c: char) { '0' <= c <= '9' }
  predicate IsAsciiLetter(c: char) { 'a' <= c <= 'z' || 'A' <= c <= 'Z' }
  predicate IsUpperLetter(c: char) { 'A' <= c <= 'Z' }
  predicate IsLowerLetter(c: char) { 'a' <= c <= 'z' }

  predicate AllSpace(s: string) { forall i | 0 <= i < |s| :: IsSpace(s[i]) }
  predicate NoSpace(s: string) { forall i | 0 <= i < |s| :: !IsSpace(s[i]) }
  predicate AllDigits(s: string) { forall i | 0 <= i < |s| :: IsDigit(s[i]) }
  predicate AllLetters(s: string) { forall i | 0 <= i < |s| :: IsAsciiLetter(s[i]) }

  // ---------------------------------------------------------------- strip

  function TrimLeft(s: string): (r: string)
    ensures |r| <= |s| && r == s[|s| - |r|..]
    ensures r != [] ==> !IsSpace(r[0])
    ensures AllSpace(s[..|s| - |r|])
  {
    if s != [] && IsSpace(s[0]) then
      var r := TrimLeft(s[1..]);
      assert s[..|s| - |r|] == [s[0]] + s[1..][..|s[1..]| - |r|];
      r
    else s
  }

  function TrimRight(s: string): (r: string)
    ensures |r| <= |s| && r == s[..|r|]
    ensures r != [] ==> !IsSpace(r[|r| - 1])
    ensures AllSpace(s[|r|..])
  {
    if s != [] && IsSpace(s[|s| - 1]) then
      var r := TrimRight(s[..|s| - 1]);
      assert s[|r|..] == s[..|s| - 1][|r|..] + [s[|s| - 1]];
      r
    else s
  }

  /** Python's `str.strip()`. */
  function Strip(s: string): (r: string)
    ensures |r| <= |s|
    ensures r != [] ==> !IsSpace(r[0]) && !IsSpace(r[|r| - 1])
  {
    TrimRight(TrimLeft(s))
  }

  lemma TrimLeftNoLead(s: string)
    requires s == [] || !IsSpace(s[0])
    ensures TrimLeft(s) == s
  {
  }

  lemma TrimRightNoTrail(s: string)
    requires s == [] || !IsSpace(s[|s| - 1])
    ensures TrimRight(s) == s
  {
  }

  /** Text that starts and ends with a non-space character is its own strip. */
  lemma StripStripped(s: string)
    requires s == [] || (!IsSpace(s[0]) && !IsSpace(s[|s| - 1]))
    ensures Strip(s) == s
  {
    TrimLeftNoLead(s);
    TrimRightNoTrail(s);
  }

  lemma StripKeepsFirst(s: string)
    requires s != [] && !IsSpace(s[0])
    ensures Strip(s) != [] && Strip(s)[0] == s[0]
  {
    TrimLeftNoLead(s);
  }

  lemma StripIdempotent(s: string)
    ensures Strip(Strip(s)) == Strip(s)
  {
    StripStripped(Strip(s));
  }

  lemma StripAllSpace(s: string)
    requires AllSpace(s)
    ensures Strip(s) == []
  {
  }

  // ------------------------------------------------------------- case

  function LowerChar(c: char): (r: char)
    ensures IsUpperLetter(c) ==> IsLowerLetter(r)
    ensures !IsUpperLetter(c) ==> r == c
  {
    if IsUpperLetter(c) then (c as int + 32) as char else c
  }

  function UpperChar(c: char): (r: char)
    ensures IsLowerLetter(c) ==> IsUpperLetter(r)
    ensures !IsLowerLetter(c) ==> r == c
  {
    if IsLowerLetter(c) then (c as int - 32) as char else c
  }

  /** `str.lower()` restricted to the ASCII letters. */
  function Lower(s: string): (r: string)
    ensures |r| == |s|
  {
    seq(|s|, i requires 0 <= i < |s| => LowerChar(s[i]))
  }

  /** `str.upper()` restricted to the ASCII letters. */
  function Upper(s: string): (r: string)
    ensures |r| == |s|
  {
    seq(|s|, i requires 0 <= i < |s| => UpperChar(s[i]))
  }

  predicate IsLowered(s: string) { forall i | 0 <= i < |s| :: !IsUpperLetter(s[i]) }

  lemma LowerIsLowered(s: string)
    ensures IsLowered(Lower(s))
  {
  }

  lemma LoweredFixed(s: string)
    requires IsLowered(s)
    ensures Lower(s) == s
  {
  }

  lemma LowerKeepsSpace(s: string)
    ensures forall i | 0 <= i < |s| :: IsSpace(Lower(s)[i]) <==> IsSpace(s[i])
  {
  }

  // ------------------------------------------------------------- search

  predicate StartsWith(s: string, p: string) { |p| <= |s| && s[..|p|] == p }
  predicate EndsWith(s: string, p: string) { |p| <= |s| && s[|s| - |p|..] == p }

  lemma StartsWithConcat(p: string, s: string)
    ensures StartsWith(p + s, p)
  {
    assert (p + s)[..|p|] == p;
  }

  /** Python's `needle in hay` for strings. */
  predicate Contains(hay: string, needle: string)
    decreases |hay|
  {
    StartsWith(hay, needle) || (hay != [] && Contains(hay[1..], needle))
  }

  lemma ContainsAt(hay: string, needle: string, i: nat)
    requires i + |needle| <= |hay| && hay[i..i + |needle|] == needle
    ensures Contains(hay, needle)
    decreases i
  {
    if i > 0 {
      assert hay[1..][i - 1..i - 1 + |needle|] == needle;
      ContainsAt(hay[1..], needle, i - 1);
    }
  }

  function IndexOf(s: string, c: char): (i: nat)
    requires c in s
    ensures i < |s| && s[i] == c && c !in s[..i]
  {
    if s[0] == c then 0 else 1 + IndexOf(s[1..], c)
  }

  // ------------------------------------------------------------- split / join

  /** Length of the longest prefix of `s` without a whitespace character. */
  function WordLength(s: string): (n: nat)
    ensures n <= |s| && NoSpace(s[..n])
    ensures n < |s| ==> IsSpace(s[n])
  {
    if s == [] || IsSpace(s[0]) then 0 else 1 + WordLength(s[1..])
  }

  /** Every element is a non-empty run of non-space characters. */
  predicate AllWords(r: seq<string>) {
    forall i | 0 <= i < |r| :: r[i] != [] && NoSpace(r[i])
  }

  lemma AllWordsCons(w: string, rest: seq<string>)
    requires w != [] && NoSpace(w) && AllWords(rest)
    ensures AllWords([w] + rest)
  {
    var r := [w] + rest;
    forall i | 0 <= i < |r|
      ensures r[i] != [] && NoSpace(r[i])
    {
      if i > 0 {
        assert r[i] == rest[i - 1];
      }
    }
  }

  /** Python's `str.split()` with no separator: the maximal runs of non-space characters, in order. */
  function Words(s: string): (r: seq<string>)
    ensures AllWords(r)
    decreases |s|
  {
    var t := TrimLeft(s);
    if t == [] then []
    else
      var n := WordLength(t);
      assert n > 0;
      var rest := Words(t[n..]);
      AllWordsCons(t[..n], rest);
      [t[..n]] + rest
  }

  /** Python's `str.split(sep)` for a one-character separator. */
  function SplitOn(s: string, sep: char): (r: seq<string>)
    ensures |r| >= 1
    ensures forall i | 0 <= i < |r| :: sep !in r[i]
    ensures sep !in s ==> r == [s]
    decreases |s|
  {
    if sep !in s then [s]
    else
      var i := IndexOf(s, sep);
      [s[..i]] + SplitOn(s[i + 1..], sep)
  }

  /** `sep.join(parts)`. */
  function Join(parts: seq<string>, sep: string): string {
    if parts == [] then ""
    else if |parts| == 1 then parts[0]
    else parts[0] + sep + Join(parts[1..], sep)
  }

  /** `s.count(c)` for one character. */
  function CountChar(s: string, c: char): nat {
    if s == [] then 0 else CountChar(s[..|s| - 1], c) + (if s[|s| - 1] == c then 1 else 0)
  }

  lemma {:induction false} CountCharConcat(a: string, b: string, c: char)
    ensures CountChar(a + b, c) == CountChar(a, c) + CountChar(b, c)
    decreases |b|
  {
    if b != [] {
      assert (a + b)[..|a + b| - 1] == a + b[..|b| - 1];
      CountCharConcat(a, b[..|b| - 1], c);
    } else {
      assert a + b == a;
    }
  }

  lemma {:induction false} CountCharAbsent(s: string, c: char)
    requires c !in s
    ensures CountChar(s, c) == 0
    decreases |s|
  {
    if s != [] {
      assert s[..|s| - 1] <= s;
      CountCharAbsent(s[..|s| - 1], c);
    }
  }

  /** Text holding `c` only as the character between `a` and `b` holds it once. */
  lemma CountCharOnce(a: string, c: char, b: string)
    requires c !in a && c !in b
    ensures CountChar(a + [c] + b, c) == 1
  {
    CountCharAbsent(a, c);
    CountCharAbsent(b, c);
    CountCharConcat(a, [c], c);
    CountCharConcat(a + [c], b, c);
    assert [c][..0] == [];
  }

  /** Joining parts that each hold `c` once, with a separator free of `c`, holds `c` once per part. */
  lemma {:induction false} JoinCountChar(parts: seq<string>, sep: string, c: char)
    requires forall i | 0 <= i < |parts| :: CountChar(parts[i], c) == 1
    requires CountChar(sep, c) == 0
    ensures CountChar(Join(parts, sep), c) == |parts|
    decreases |parts|
  {
    if |parts| > 1 {
      JoinCountChar(parts[1..], sep, c);
      CountCharConcat(parts[0], sep, c);
      CountCharConcat(parts[0] + sep, Join(parts[1..], sep), c);
      assert CountChar(parts[0], c) == 1;
    } else if |parts| == 1 {
      assert CountChar(parts[0], c) == 1;
    }
  }

  // ------------------------------------------------------------- numbers

  function DigitChar(d: nat): (c: char)
    requires d < 10
    ensures IsDigit(c)
  {
    ('0' as int + d) as char
  }

  function DigitValue(c: char): nat
    requires IsDigit(c)
  {
    c as int - '0' as int
  }

  /** `str(n)` for a natural number. */
  function NatToString(n: nat): (s: string)
    ensures s != [] && AllDigits(s)
  {
    if n < 10 then [DigitChar(n)] else NatToString(n / 10) + [DigitChar(n % 10)]
  }

  /** `str(i)` for an integer. */
  function IntToString(i: int): string {
    if i < 0 then "-" + NatToString(-i) else NatToString(i)
  }

  /** `str(n)` left-padded with zeros to `width` digits, as `%04d` / `%02d` render it. */
  function PadNat(n: nat, width: nat): (s: string)
    ensures |s| >= width
  {
    var d := NatToString(n);
    if |d| >= width then d else seq(width - |d|, _ => '0') + d
  }

  /** The decimal value of a string of ASCII digits. */
  function DigitsValue(s: string): nat
    requires AllDigits(s)
  {
    if s == [] then 0 else DigitsValue(s[..|s| - 1]) * 10 + DigitValue(s[|s| - 1])
  }

  /** Digits with single underscores between them, as Python's `int()` accepts. */
  predicate IsDigitGroups(s: string) {
    && s != [] && IsDigit(s[0]) && IsDigit(s[|s| - 1])
    && (forall i | 0 <= i < |s| :: IsDigit(s[i]) || s[i] == '_')
    && (forall i | 0 <= i < |s| - 1 :: !(s[i] == '_' && s[i + 1] == '_'))
  }

  function DropUnderscores(s: string): (r: string)
    requires forall i | 0 <= i < |s| :: IsDigit(s[i]) || s[i] == '_'
    ensures AllDigits(r)
  {
    if s == [] then []
    else (if s[0] == '_' then [] else [s[0]]) + DropUnderscores(s[1..])
  }

  /** Python's `int(s)` on a `str`, with ASCII digits: `None` where it raises ValueError. */
  function ParseInt(s: string): Option<int> {
    var t := Strip(s);
    if t != [] && (t[0] == '+' || t[0] == '-') then
      var body := t[1..];
      if IsDigitGroups(body) then
        var v: int := DigitsValue(DropUnderscores(body));
        Some(if t[0] == '-' then -v else v)
      else None
    else if IsDigitGroups(t) then Some(DigitsValue(DropUnderscores(t)))
    else None
  }

  /** A plain run of digits converts to its decimal value. */
  lemma ParseIntDigits(s: string)
    requires s != [] && AllDigits(s)
    ensures ParseInt(s) == Some(DigitsValue(s))
  {
    assert !IsSpace(s[0]) && !IsSpace(s[|s| - 1]);
    StripStripped(s);
    assert IsDigitGroups(s);
    ParseIntUnsigned(s);
    DropUnderscoresDigits(s);
  }

  lemma ParseIntUnsigned(s: string)
    requires Strip(s) == s && IsDigitGroups(s)
    ensures ParseInt(s) == Some(DigitsValue(DropUnderscores(s)))
  {
    assert IsDigit(s[0]);
  }

  lemma DropUnderscoresDigits(s: string)
    requires AllDigits(s)
    ensures DropUnderscores(s) == s
  {
  }
}
