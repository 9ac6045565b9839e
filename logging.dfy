/**
 * `parse_file_size` from the logging utilities, and the size pattern it
 * shares with the configuration validator: `^(\d+(?:\.\d+)?)\s*([KMGT]?B?)$`
 * matched against the upper-cased, stripped text.  The character classes of
 * the pattern are disjoint, so the regular expression never backtracks into
 * a different split: `SizeMatch` scans it from left to right, and
 * `SizeMatchSpec` shows the scan accepts exactly the texts the pattern
 * describes, with exactly their groups.
 */
module Logging {
  import opened Wrappers
  import opened Strings
  import opened Exceptions

  /** The parts of a text the size pattern accepts: digits, an optional fraction, white space and a unit. */
  datatype SizeText = SizeText(whole: string, fraction: Option<string>, gap: string, unit: string)

  predicate AllDigits(s: string) {
    forall i :: 0 <= i < |s| ==> IsDigit(s[i])
  }

  predicate AllSpaces(s: string) {
    forall i :: 0 <= i < |s| ==> IsSpace(s[i])
  }

  /** `[KMGT]` */
  predicate IsScale(c: char) {
    c == 'K' || c == 'M' || c == 'G' || c == 'T'
  }

  /** The texts of `[KMGT]?B?`. */
  predicate IsUnit(u: string) {
    || u == []
    || (|u| == 1 && (IsScale(u[0]) || u[0] == 'B'))
    || (|u| == 2 && IsScale(u[0]) && u[1] == 'B')
  }

  /** The parts have the shape of the pattern's groups. */
  predicate WellFormed(p: SizeText) {
    && |p.whole| > 0 && AllDigits(p.whole)
    && (p.fraction.Some? ==> |p.fraction.value| > 0 && AllDigits(p.fraction.value))
    && AllSpaces(p.gap)
    && IsUnit(p.unit)
  }

  /** The text the parts spell. */
  function Compose(p: SizeText): string {
    p.whole + (if p.fraction.Some? then "." + p.fraction.value else "") + p.gap + p.unit
  }

  /** The run of digits at the start of `s`, and what follows it. */
  function LeadingDigits(s: string): (r: (string, string))
    ensures s == r.0 + r.1 && AllDigits(r.0) && (r.1 == [] || !IsDigit(r.1[0]))
  {
    if s == [] || !IsDigit(s[0]) then ([], s)
    else
      var (d, rest) := LeadingDigits(s[1..]);
      assert s == [s[0]] + s[1..];
      ([s[0]] + d, rest)
  }

  /** The run of white space at the start of `s`, and what follows it. */
  function LeadingSpaces(s: string): (r: (string, string))
    ensures s == r.0 + r.1 && AllSpaces(r.0) && (r.1 == [] || !IsSpace(r.1[0]))
  {
    if s == [] || !IsSpace(s[0]) then ([], s)
    else
      var (w, rest) := LeadingSpaces(s[1..]);
      assert s == [s[0]] + s[1..];
      ([s[0]] + w, rest)
  }

  /** `(?:\.\d+)?` at the start of `rest`: the fraction's digits, if any, and the text after them. */
  function SplitFraction(rest: string): (r: (Option<string>, string))
    ensures r.0.Some? ==> |r.0.value| > 0 && AllDigits(r.0.value) && rest == "." + r.0.value + r.1
    ensures r.0.None? ==> r.1 == rest
  {
    if |rest| > 0 && rest[0] == '.' && LeadingDigits(rest[1..]).0 != [] then
      var (f, after) := LeadingDigits(rest[1..]);
      assert rest == "." + rest[1..];
      (Some(f), after)
    else (None, rest)
  }

  /** `\s*([KMGT]?B?)$` on `after`: the white space and the unit, when the rest is a unit. */
  function SplitUnit(after: string): (r: Option<(string, string)>)
    ensures r.Some? ==> AllSpaces(r.value.0) && IsUnit(r.value.1) && after == r.value.0 + r.value.1
  {
    var (gap, unit) := LeadingSpaces(after);
    if IsUnit(unit) then Some((gap, unit)) else None
  }

  /** `re.match(pattern, t)`: the groups when the pattern matches all of `t`, else `None`. */
  function SizeMatch(t: string): Option<SizeText> {
    var (whole, rest) := LeadingDigits(t);
    if whole == [] then None
    else
      var (fraction, after) := SplitFraction(rest);
      match SplitUnit(after)
      case None => None
      case Some((gap, unit)) => Some(SizeText(whole, fraction, gap, unit))
  }

  /** A character that can start a non-empty unit. */
  lemma UnitStart(u: string)
    requires IsUnit(u) && u != []
    ensures !IsDigit(u[0]) && !IsSpace(u[0]) && u[0] != '.'
  {
  }

  /** Digits followed by text that does not start with a digit split back into the two. */
  lemma {:induction false} LeadingDigitsOf(a: string, b: string)
    requires AllDigits(a) && (b == [] || !IsDigit(b[0]))
    ensures LeadingDigits(a + b) == (a, b)
    decreases |a|
  {
    if a != [] {
      assert (a + b)[1..] == a[1..] + b;
      LeadingDigitsOf(a[1..], b);
      assert a == [a[0]] + a[1..];
    } else {
      assert a + b == b;
    }
  }

  /** White space followed by text that does not start with white space splits back into the two. */
  lemma {:induction false} LeadingSpacesOf(a: string, b: string)
    requires AllSpaces(a) && (b == [] || !IsSpace(b[0]))
    ensures LeadingSpaces(a + b) == (a, b)
    decreases |a|
  {
    if a != [] {
      assert (a + b)[1..] == a[1..] + b;
      LeadingSpacesOf(a[1..], b);
      assert a == [a[0]] + a[1..];
    } else {
      assert a + b == b;
    }
  }

  lemma Assoc4(a: string, b: string, c: string, d: string)
    ensures a + b + c + d == a + (b + (c + d))
  {
  }

  /** Whatever the scan returns spells the text and has the pattern's shape. */
  lemma SizeMatchSound(t: string)
    requires SizeMatch(t).Some?
    ensures WellFormed(SizeMatch(t).value) && Compose(SizeMatch(t).value) == t
  {
    var (whole, rest) := LeadingDigits(t);
    var (fraction, after) := SplitFraction(rest);
    var p := SizeMatch(t).value;
    var dot := if fraction.Some? then "." + fraction.value else "";
    assert rest == dot + after by {
      if fraction.None? { assert dot + after == after; }
    }
    Assoc4(whole, dot, p.gap, p.unit);
  }

  /** White space then a unit splits back into the two. */
  lemma SplitUnitOf(gap: string, unit: string)
    requires AllSpaces(gap) && IsUnit(unit)
    ensures SplitUnit(gap + unit) == Some((gap, unit))
  {
    if unit != [] { UnitStart(unit); }
    LeadingSpacesOf(gap, unit);
  }

  /** White space and a unit start with neither a digit nor a dot. */
  lemma TailStart(gap: string, unit: string)
    requires AllSpaces(gap) && IsUnit(unit)
    ensures var tail := gap + unit; tail == [] || (!IsDigit(tail[0]) && tail[0] != '.')
  {
    if gap != [] { assert (gap + unit)[0] == gap[0]; }
    else if unit != [] { assert gap + unit == unit; UnitStart(unit); }
  }

  /** An optional fraction before white space and a unit splits back off. */
  lemma SplitFractionOf(fraction: Option<string>, tail: string)
    requires fraction.Some? ==> |fraction.value| > 0 && AllDigits(fraction.value)
    requires tail == [] || (!IsDigit(tail[0]) && tail[0] != '.')
    ensures SplitFraction((if fraction.Some? then "." + fraction.value else "") + tail) == (fraction, tail)
  {
    if fraction.Some? {
      var f := fraction.value;
      var rest := "." + f + tail;
      assert rest[1..] == f + tail;
      LeadingDigitsOf(f, tail);
    } else {
      assert "" + tail == tail;
    }
  }

  /** Every text with the pattern's shape is matched, with exactly its parts as the groups. */
  lemma SizeMatchComplete(p: SizeText)
    requires WellFormed(p)
    ensures SizeMatch(Compose(p)) == Some(p)
  {
    var t := Compose(p);
    var tail := p.gap + p.unit;
    var dot := if p.fraction.Some? then "." + p.fraction.value else "";
    SplitUnitOf(p.gap, p.unit);
    TailStart(p.gap, p.unit);
    SplitFractionOf(p.fraction, tail);
    Assoc4(p.whole, dot, p.gap, p.unit);
    assert dot + tail == [] || !IsDigit((dot + tail)[0]) by {
      if p.fraction.Some? { assert (dot + tail)[0] == '.'; } else { assert dot + tail == tail; }
    }
    LeadingDigitsOf(p.whole, dot + tail);
  }

  /** The scan and the pattern agree: a text matches with groups `p` exactly when `p` has the shape and spells the text. */
  lemma SizeMatchSpec(t: string, p: SizeText)
    ensures SizeMatch(t) == Some(p) <==> WellFormed(p) && Compose(p) == t
  {
    if SizeMatch(t) == Some(p) {
      SizeMatchSound(t);
    }
    if WellFormed(p) && Compose(p) == t {
      SizeMatchComplete(p);
    }
  }

  /** The factor of a scale letter: kilo, mega, giga and tera in powers of 1024. */
  function ScaleFactor(c: char): nat
    requires IsScale(c)
  {
    match c
    case 'K' => 1024
    case 'M' => 1048576
    case 'G' => 1073741824
    case 'T' => 1099511627776
  }

  /** `multipliers.get(unit)`: `B` and the four scaled byte units. */
  function Multiplier(unit: string): Option<nat> {
    if unit == ['B'] then Some(1)
    else if |unit| == 2 && IsScale(unit[0]) && unit[1] == 'B' then Some(ScaleFactor(unit[0]))
    else None
  }

  function Pow10(k: nat): (p: nat)
    ensures p >= 1
  {
    if k == 0 then 1 else 10 * Pow10(k - 1)
  }

  /** `float(match.group(1))`, read exactly. */
  function NumberValue(p: SizeText): real
    requires WellFormed(p)
  {
    DigitsValue(p.whole) as real
    + (if p.fraction.Some? then DigitsValue(p.fraction.value) as real / Pow10(|p.fraction.value|) as real else 0.0)
  }

  /** The text `parse_file_size` matches: upper-cased, then stripped. */
  function Normalised(sizeStr: string): string {
    Strip(Upper(sizeStr))
  }

  /** `parse_file_size` from the match on: the number times the unit's multiplier, truncated by `int()`. */
  function ParseNormalised(t: string): Result<int, Error> {
    match SizeMatch(t)
    case None => Err(BuiltinError("ValueError", "Invalid file size format: " + t))
    case Some(p) =>
      SizeMatchSound(t);
      var unit := if p.unit == [] then ['B'] else p.unit;
      match Multiplier(unit)
      case None => Err(BuiltinError("ValueError", "Unknown size unit: " + unit))
      case Some(factor) => Ok(Scaled(NumberValue(p), factor))
  }

  /** `int(number * multiplier)`: `int()` truncates toward zero, which is the floor for a non-negative product. */
  function Scaled(x: real, factor: nat): int {
    (x * factor as real).Floor
  }

  lemma ScaledNonNegative(x: real, factor: nat)
    requires x >= 0.0
    ensures Scaled(x, factor) >= 0
  {
    assert x * factor as real >= 0.0;
  }

  /** A whole number scales exactly. */
  lemma ScaledWhole(n: nat, factor: nat)
    ensures Scaled(n as real, factor) == n * factor
  {
    assert (n as real) * (factor as real) == (n * factor) as real;
  }

  /**
   * `parse_file_size`: `ValueError` for text the pattern rejects and for a
   * bare `K`/`M`/`G`/`T` the multipliers lack; otherwise the number times
   * the unit's multiplier, with no unit meaning bytes.
   */
  function ParseFileSize(sizeStr: string): Result<int, Error> {
    ParseNormalised(Normalised(sizeStr))
  }

  /** Upper-casing twice is upper-casing once. */
  lemma UpperIdempotent(s: string)
    ensures Upper(Upper(s)) == Upper(s)
  {
  }

  /** Upper-casing after lower-casing is upper-casing. */
  lemma UpperOfLower(s: string)
    ensures Upper(Lower(s)) == Upper(s)
  {
  }

  /** Case does not matter: the lower-case and the upper-case spelling of a size parse alike. */
  lemma ParseFileSizeCaseInsensitive(s: string)
    ensures ParseFileSize(Lower(s)) == ParseFileSize(s)
    ensures ParseFileSize(Upper(s)) == ParseFileSize(s)
  {
    UpperOfLower(s);
    UpperIdempotent(s);
  }

  /** Leading white space is dropped by `lstrip`. */
  lemma {:induction false} StripLeftPadded(a: string, x: string)
    requires AllSpaces(a)
    ensures StripLeft(a + x) == StripLeft(x)
    decreases |a|
  {
    if a != [] {
      assert (a + x)[1..] == a[1..] + x;
      StripLeftPadded(a[1..], x);
    } else {
      assert a + x == x;
    }
  }

  /** Trailing white space is dropped by `rstrip`. */
  lemma {:induction false} StripRightPadded(x: string, b: string)
    requires AllSpaces(b)
    ensures StripRight(x + b) == StripRight(x)
    decreases |b|
  {
    if b != [] {
      var n := |b| - 1;
      assert (x + b)[..|x + b| - 1] == x + b[..n];
      StripRightPadded(x, b[..n]);
    } else {
      assert x + b == x;
    }
  }

  /** Trailing white space does not survive `strip`, even after the left side is stripped. */
  lemma {:induction false} StripTrailing(x: string, b: string)
    requires AllSpaces(b)
    ensures Strip(x + b) == Strip(x)
    decreases |x|
  {
    if x == [] {
      StripLeftPadded(b, []);
      assert b + [] == b && [] + b == b;
    } else if IsSpace(x[0]) {
      assert (x + b)[1..] == x[1..] + b;
      StripTrailing(x[1..], b);
    } else {
      assert StripLeft(x + b) == x + b && StripLeft(x) == x;
      StripRightPadded(x, b);
    }
  }

  /** Upper-casing leaves white space alone. */
  lemma UpperSpaces(a: string)
    requires AllSpaces(a)
    ensures Upper(a) == a
  {
  }

  /** White space around a size does not matter. */
  lemma ParseFileSizePadded(a: string, s: string, b: string)
    requires AllSpaces(a) && AllSpaces(b)
    ensures ParseFileSize(a + s + b) == ParseFileSize(s)
  {
    UpperSpaces(a);
    UpperSpaces(b);
    assert Upper(a + s + b) == a + (Upper(s) + b);
    StripLeftPadded(a, Upper(s) + b);
    StripTrailing(Upper(s), b);
  }

  /** Digits and upper-case units are left alone by upper-casing and stripping. */
  lemma NormalisedPlain(n: string, u: string)
    requires |n| > 0 && AllDigits(n) && IsUnit(u)
    ensures Normalised(n + u) == n + u
  {
    var t := n + u;
    assert Upper(t) == t;
    if u != [] { UnitStart(u); assert t[|t| - 1] == u[|u| - 1]; }
    StripTrimmed(t);
  }

  /** A whole number with a byte unit, or none, is that number times the unit's multiplier. */
  lemma ParseWholeSize(n: string, u: string)
    requires |n| > 0 && AllDigits(n) && IsUnit(u) && (u == [] || u[|u| - 1] == 'B')
    ensures |u| <= 1 ==> ParseFileSize(n + u) == Ok(DigitsValue(n))
    ensures |u| == 2 ==> ParseFileSize(n + u) == Ok(DigitsValue(n) * ScaleFactor(u[0]))
  {
    NormalisedPlain(n, u);
    WholeSizeMatched(n, u);
  }

  lemma WholeSizeMatched(n: string, u: string)
    requires |n| > 0 && AllDigits(n) && IsUnit(u) && (u == [] || u[|u| - 1] == 'B')
    ensures ParseNormalised(n + u) == Ok(DigitsValue(n) * (if |u| <= 1 then 1 else ScaleFactor(u[0])))
  {
    var p := SizeText(n, None, "", u);
    assert Compose(p) == n + u;
    SizeMatchComplete(p);
    var factor := if |u| <= 1 then 1 else ScaleFactor(u[0]);
    assert Multiplier(if u == [] then ['B'] else u) == Some(factor);
    assert NumberValue(p) == DigitsValue(n) as real;
    ScaledWhole(DigitsValue(n), factor);
  }

  /** A bare `K`, `M`, `G` or `T` satisfies the pattern but is not a unit `parse_file_size` knows. */
  lemma BareLetterRejected(n: string, u: string)
    requires |n| > 0 && AllDigits(n) && |u| == 1 && IsScale(u[0])
    ensures SizeMatch(Normalised(n + u)).Some?
    ensures ParseFileSize(n + u) == Err(BuiltinError("ValueError", "Unknown size unit: " + u))
  {
    var p := SizeText(n, None, "", u);
    assert Compose(p) == n + u;
    SizeMatchComplete(p);
    NormalisedPlain(n, u);
  }

  /** Text the pattern rejects raises `ValueError` naming the normalised text. */
  lemma MalformedRejected(s: string)
    requires forall p: SizeText :: !(WellFormed(p) && Compose(p) == Normalised(s))
    ensures ParseFileSize(s) == Err(BuiltinError("ValueError", "Invalid file size format: " + Normalised(s)))
  {
    var t := Normalised(s);
    if SizeMatch(t).Some? {
      SizeMatchSound(t);
      assert false;
    }
  }

  /** A parsed size is never negative. */
  lemma ParseFileSizeNonNegative(s: string)
    requires ParseFileSize(s).Ok?
    ensures ParseFileSize(s).value >= 0
  {
    MatchedNonNegative(Normalised(s));
  }

  lemma MatchedNonNegative(t: string)
    requires ParseNormalised(t).Ok?
    ensures ParseNormalised(t).value >= 0
  {
    var p := SizeMatch(t).value;
    SizeMatchSound(t);
    var unit := if p.unit == [] then ['B'] else p.unit;
    ScaledNonNegative(NumberValue(p), Multiplier(unit).value);
  }
}
