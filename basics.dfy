/** Optional record fields: TypeScript's `field?: T`. */
module Wrappers {

  datatype Option<+T> = None | Some(value: T) {

    /** `field || default` when `default` is what JavaScript substitutes. */
    function GetOr(default: T): T
    {
      match this
      case Some(v) => v
      case None => default
    }
  }

  /** `flag` used as a condition: only a present `true` is truthy. */
  predicate IsTrue(b: Option<bool>)
  {
    b == Some(true)
  }
}

/** The `Math.round(a / b * 100)` percentages of every page, in exact
    integer arithmetic. */
module Percent {

  /** `Math.round(a / b * 100)`: the integer nearest to 100a/b, a half rounded up. */
  function RoundPercent(a: nat, b: nat): (r: nat)
    requires b > 0
    ensures 2 * b * r <= 200 * a + b < 2 * b * r + 2 * b
  {
    var r := (200 * a + b) / (2 * b);
    DivBounds(200 * a + b, 2 * b);
    r
  }

  lemma DivBounds(n: nat, d: nat)
    requires d > 0
    ensures d * (n / d) <= n < d * (n / d) + d
  {
  }

  /** `whole > 0 ? Math.round(part / whole * 100) : 0`, the zero-guarded rate
      used for resolution rates and module progress. */
  function Rate(part: nat, whole: nat): (r: nat)
    ensures whole == 0 ==> r == 0
    ensures whole > 0 ==> 2 * whole * r <= 200 * part + whole < 2 * whole * r + 2 * whole
    ensures part <= whole ==> r <= 100
    ensures part == 0 ==> r == 0
    ensures 0 < whole == part ==> r == 100
  {
    if whole == 0 then 0
    else
      PercentFacts(part, whole);
      RoundPercent(part, whole)
  }

  lemma PercentFacts(a: nat, b: nat)
    requires b > 0
    ensures a <= b ==> RoundPercent(a, b) <= 100
    ensures a == 0 ==> RoundPercent(a, b) == 0
    ensures a == b ==> RoundPercent(a, b) == 100
  {
    if a <= b { PercentAtMostHundred(a, b); }
    if a == 0 { PercentOfNothing(b); }
    if a == b { PercentOfAll(b); }
  }

  lemma PercentAtMostHundred(a: nat, b: nat)
    requires 0 <= a <= b && b > 0
    ensures RoundPercent(a, b) <= 100
  {
    var r := RoundPercent(a, b);
    if r > 100 {
      MulMonotone(2 * b, 101, r);
      assert false;
    }
  }

  lemma PercentOfNothing(b: nat)
    requires b > 0
    ensures RoundPercent(0, b) == 0
  {
    var r := RoundPercent(0, b);
    if r > 0 {
      MulMonotone(2 * b, 1, r);
      assert false;
    }
  }

  lemma PercentOfAll(b: nat)
    requires b > 0
    ensures RoundPercent(b, b) == 100
  {
    var r := RoundPercent(b, b);
    PercentAtMostHundred(b, b);
    if r < 100 {
      MulMonotone(2 * b, r + 1, 100);
      assert false;
    }
  }

  lemma MulMonotone(k: nat, x: nat, y: nat)
    requires x <= y
    ensures k * x <= k * y
  {
  }

  /** The percentage reads 100 exactly when at least 199/200 of the whole is
      reached, so 199 of 200 (or any share of at least 99.5%) also shows 100. */
  lemma {:induction false} PercentIsHundred(a: nat, b: nat)
    requires 0 <= a <= b && b > 0
    ensures RoundPercent(a, b) == 100 <==> 200 * a >= 199 * b
  {
    var r := RoundPercent(a, b);
    PercentAtMostHundred(a, b);
    if r < 100 {
      MulMonotone(2 * b, r + 1, 100);
    }
  }
}

/** Dates as integers. A timestamp is a count of milliseconds of local wall
    time since the epoch; a day number counts local days since 1970-01-01,
    which was a Thursday. */
module Dates {
  import opened Wrappers

  const MsPerDay: int := 86400000

  /** The local calendar day a timestamp falls on. */
  function Day(t: int): int
  {
    t / MsPerDay
  }

  /** `getDay()`: 0 for Sunday up to 6 for Saturday. */
  function Weekday(d: int): (w: int)
    ensures 0 <= w < 7
  {
    (d + 4) % 7
  }

  /** The Sunday that starts the week of day d (`startOfWeek`, week starting Sunday). */
  function WeekStart(d: int): (w: int)
    ensures w <= d < w + 7
    ensures Weekday(w) == 0
  {
    var w := d - Weekday(d);
    assert (w + 4) % 7 == 0 by {
      assert d + 4 == 7 * ((d + 4) / 7) + (d + 4) % 7;
    }
    w
  }

  /** The i-th day of a week that starts on Sunday w is weekday i, and its week starts on w. */
  lemma WeekdayOffset(w: int, i: int)
    requires Weekday(w) == 0 && 0 <= i < 7
    ensures Weekday(w + i) == i
    ensures WeekStart(w + i) == w
  {
    assert w + i + 4 == 7 * ((w + 4) / 7) + i by {
      assert w + 4 == 7 * ((w + 4) / 7) + (w + 4) % 7;
    }
  }

  /** The seven days from a Sunday w are the weekdays 0 to 6 of w's week. */
  lemma WeekDays(w: int)
    requires Weekday(w) == 0
    ensures forall d :: w <= d < w + 7 ==> Weekday(d) == d - w && WeekStart(d) == w
  {
    forall d | w <= d < w + 7
      ensures Weekday(d) == d - w && WeekStart(d) == w
    {
      WeekdayOffset(w, d - w);
    }
  }

  /** The first millisecond of day d. */
  function StartOfDay(d: int): int
  {
    d * MsPerDay
  }

  lemma DayBounds(t: int)
    ensures StartOfDay(Day(t)) <= t < StartOfDay(Day(t) + 1)
  {
  }

  /** A timestamp lies between the first millisecond of day `lo` and the last
      millisecond of day `hi` exactly when its day lies between `lo` and `hi`. */
  lemma DayRange(t: int, lo: int, hi: int)
    ensures (StartOfDay(lo) <= t <= StartOfDay(hi + 1) - 1) <==> (lo <= Day(t) <= hi)
  {
    DayBounds(t);
    if lo <= Day(t) {
      MonotoneDays(lo, Day(t));
    }
    if Day(t) < lo {
      MonotoneDays(Day(t) + 1, lo);
    }
    if Day(t) <= hi {
      MonotoneDays(Day(t) + 1, hi + 1);
    }
    if hi < Day(t) {
      MonotoneDays(hi + 1, Day(t));
    }
  }

  lemma MonotoneDays(a: int, b: int)
    requires a <= b
    ensures StartOfDay(a) <= StartOfDay(b)
  {
  }

  /** TypeScript `Date | string`: a `Date` object, or an ISO string together
      with the instant the date library parses it to. */
  datatype DateValue = Instant(ms: int) | Text(text: string, ms: int)

  /** `if (record.date)`: absent fields and the empty string are falsy. */
  predicate Truthy(d: Option<DateValue>)
  {
    d.Some? && !(d.value.Text? && d.value.text == "")
  }

  /** `record.date ? parse(record.date) : new Date(0)`: the instant, with a
      missing date counted as the epoch. */
  function TimeOrEpoch(d: Option<DateValue>): (t: int)
    ensures !Truthy(d) ==> t == 0
    ensures Truthy(d) ==> t == d.value.ms
  {
    if Truthy(d) then d.value.ms else 0
  }
}

/** String helpers standing in for `toLowerCase`, `includes`, `trim` and `split`. */
module Text {

  /** `toLowerCase` on the ASCII letters. */
  function LowerChar(c: char): char
  {
    if 'A' <= c <= 'Z' then (c as int + 32) as char else c
  }

  function Lower(s: string): (r: string)
    ensures |r| == |s|
    ensures forall i :: 0 <= i < |s| ==> r[i] == LowerChar(s[i])
  {
    seq(|s|, i requires 0 <= i < |s| => LowerChar(s[i]))
  }

  lemma LowerIdempotent(s: string)
    ensures Lower(Lower(s)) == Lower(s)
  {
    assert forall i :: 0 <= i < |s| ==> LowerChar(LowerChar(s[i])) == LowerChar(s[i]);
  }

  /** `hay.includes(needle)` */
  predicate Contains(hay: string, needle: string)
  {
    exists i | 0 <= i <= |hay| :: OccursAt(hay, needle, i)
  }

  predicate OccursAt(hay: string, needle: string, i: int)
  {
    0 <= i <= |hay| - |needle| && hay[i..i + |needle|] == needle
  }

  /** A verbatim occurrence is also an occurrence once both sides are lowered. */
  lemma ContainsLowered(hay: string, needle: string)
    requires Contains(hay, needle)
    ensures Contains(Lower(hay), Lower(needle))
  {
    var i :| 0 <= i <= |hay| && OccursAt(hay, needle, i);
    assert 0 <= i <= |hay| - |needle| && hay[i..i + |needle|] == needle;
    assert Lower(hay)[i..i + |needle|] == Lower(needle) by {
      forall k | 0 <= k < |needle|
        ensures Lower(hay)[i..i + |needle|][k] == Lower(needle)[k]
      {
        assert hay[i + k] == needle[k];
      }
    }
    assert OccursAt(Lower(hay), Lower(needle), i);
  }

  /** The characters that `trim` removes: ECMAScript WhiteSpace and LineTerminator. */
  predicate IsSpace(c: char)
  {
    c == ' ' || c == '\t' || c == '\n' || c == '\r' || c == '\U{000B}' || c == '\U{000C}'
    || c == '\U{00A0}' || c == '\U{1680}' || ('\U{2000}' <= c <= '\U{200A}')
    || c == '\U{2028}' || c == '\U{2029}' || c == '\U{202F}' || c == '\U{205F}'
    || c == '\U{3000}' || c == '\U{FEFF}'
  }

  function TrimStart(s: string): (r: string)
    ensures |r| <= |s|
    ensures r == s[|s| - |r|..]
    ensures r != [] ==> !IsSpace(r[0])
    ensures forall i :: 0 <= i < |s| - |r| ==> IsSpace(s[i])
  {
    if s != [] && IsSpace(s[0]) then
      var r := TrimStart(s[1..]);
      assert forall i :: 1 <= i < |s| - |r| ==> s[i] == s[1..][i - 1];
      r
    else s
  }

  function TrimEnd(s: string): (r: string)
    ensures |r| <= |s|
    ensures r == s[..|r|]
    ensures r != [] ==> !IsSpace(r[|r| - 1])
    ensures forall i :: |r| <= i < |s| ==> IsSpace(s[i])
  {
    if s != [] && IsSpace(s[|s| - 1]) then
      var r := TrimEnd(s[..|s| - 1]);
      assert forall i :: |r| <= i < |s| - 1 ==> s[i] == s[..|s| - 1][i];
      r
    else s
  }

  /** `s.trim()` */
  function Trim(s: string): string
  {
    TrimEnd(TrimStart(s))
  }

  /** `!s.trim()`: a string is blank after trimming exactly when all its
      characters are white space. */
  lemma TrimEmptyIffBlank(s: string)
    ensures Trim(s) == "" <==> forall i :: 0 <= i < |s| ==> IsSpace(s[i])
  {
    var t := TrimStart(s);
    if forall i :: 0 <= i < |s| ==> IsSpace(s[i]) {
      assert t == [];
    } else {
      var i :| 0 <= i < |s| && !IsSpace(s[i]);
      assert |s| - |t| <= i;
      assert t[i - (|s| - |t|)] == s[i];
      assert !IsSpace(t[i - (|s| - |t|)]);
      var e := TrimEnd(t);
      assert e != "";
    }
  }

  /** `s.split('T')[0]`: the part of s before its first 'T'. */
  function CalendarDatePart(s: string): (r: string)
    ensures |r| <= |s|
    ensures r == s[..|r|]
    ensures 'T' !in r
    ensures |r| < |s| ==> s[|r|] == 'T'
    ensures 'T' !in s ==> r == s
  {
    if s == [] || s[0] == 'T' then [] else [s[0]] + CalendarDatePart(s[1..])
  }
}
