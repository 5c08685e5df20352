/** The text of the worker's timestamps (`now`).

The seconds come from one reading of the clock and the milliseconds from a second reading. */
module Timestamps {
  import opened Options
  import opened CivilDate

  // ----- Decimal fields -----

  function Digit(n: nat): char
    requires n < 10
  {
    (n as char) + '0'
  }

  /** The decimal digits of `n`, with leading zeros up to width `w`. */
  function Padded(n: nat, w: nat): string
    decreases n + w
  {
    if n < 10 && w <= 1 then [Digit(n)]
    else Padded(n / 10, if w == 0 then 0 else w - 1) + [Digit(n % 10)]
  }

  function Power(w: nat): nat {
    if w == 0 then 1 else 10 * Power(w - 1)
  }

  predicate IsDigit(c: char) {
    '0' <= c <= '9'
  }

  /** The number that a run of digits denotes. */
  function Number(s: string): nat
    requires forall i | 0 <= i < |s| :: IsDigit(s[i])
  {
    if s == "" then 0
    else
      var last := s[|s| - 1];
      assert IsDigit(last);
      10 * Number(s[..|s| - 1]) + (last - '0') as int
  }

  lemma {:induction false} PaddedReads(n: nat, w: nat)
    requires w > 0 && n < Power(w)
    ensures |Padded(n, w)| == w && (forall i | 0 <= i < w :: IsDigit(Padded(n, w)[i])) && Number(Padded(n, w)) == n
    decreases w
  {
    var s := Padded(n, w);
    if w == 1 {
      assert Power(1) == 10 * Power(0);
      assert Number(s[..0]) == 0;
    } else {
      PaddedReads(n / 10, w - 1);
      assert s[..w - 1] == Padded(n / 10, w - 1);
    }
  }

  /** Strict lexicographic order of texts. */
  predicate Before(s: string, t: string) {
    if s == "" || t == "" then s == "" && t != ""
    else s[0] < t[0] || (s[0] == t[0] && Before(s[1..], t[1..]))
  }

  lemma {:induction false} BeforeConcat(a: string, b: string, x: string, y: string)
    requires |a| == |b|
    ensures Before(a + x, b + y) <==> Before(a, b) || (a == b && Before(x, y))
    decreases |a|
  {
    if a == "" {
      assert a + x == x && b + y == y;
    } else {
      assert (a + x)[1..] == a[1..] + x && (b + y)[1..] == b[1..] + y;
      BeforeConcat(a[1..], b[1..], x, y);
      assert a == [a[0]] + a[1..] && b == [b[0]] + b[1..];
    }
  }

  lemma {:induction false} PaddedOrder(m: nat, n: nat, w: nat)
    requires w > 0 && m < Power(w) && n < Power(w)
    ensures Before(Padded(m, w), Padded(n, w)) <==> m < n
    decreases w
  {
    PaddedReads(m, w);
    PaddedReads(n, w);
    if w == 1 {
      assert Power(1) == 10 * Power(0);
      OneDigit(m, n);
    } else {
      PaddedOrder(m / 10, n / 10, w - 1);
      PaddedReads(m / 10, w - 1);
      PaddedReads(n / 10, w - 1);
      OneDigit(m % 10, n % 10);
      BeforeConcat(Padded(m / 10, w - 1), Padded(n / 10, w - 1), [Digit(m % 10)], [Digit(n % 10)]);
    }
  }

  lemma OneDigit(m: nat, n: nat)
    requires m < 10 && n < 10
    ensures Before([Digit(m)], [Digit(n)]) <==> m < n
  {
    assert [Digit(m)][1..] == "" && [Digit(n)][1..] == "";
  }

  // ----- Texts made of fields -----

  /** A field is so many digits and the character after them. */
  datatype Field = Field(width: nat, after: char)

  function Text(values: seq<nat>, fields: seq<Field>): string
    requires |values| == |fields|
  {
    if fields == [] then ""
    else (Padded(values[0], fields[0].width) + [fields[0].after]) + Text(values[1..], fields[1..])
  }

  /** Reads a text by its fields, or nothing if it does not have that shape. */
  function Read(s: string, fields: seq<Field>): Option<seq<nat>> {
    if fields == [] then (if s == "" then Some([]) else None)
    else
      var w := fields[0].width;
      if |s| <= w || s[w] != fields[0].after || exists i | 0 <= i < w :: !IsDigit(s[..w][i]) then None
      else
        var rest := Read(s[w + 1..], fields[1..]);
        if rest.None? then None else Some([Number(s[..w])] + rest.value)
  }

  predicate Fits(values: seq<nat>, fields: seq<Field>) {
    |values| == |fields| && forall i | 0 <= i < |fields| :: fields[i].width > 0 && values[i] < Power(fields[i].width)
  }

  lemma {:induction false} TextReads(values: seq<nat>, fields: seq<Field>)
    requires Fits(values, fields)
    ensures Read(Text(values, fields), fields) == Some(values)
    decreases |fields|
  {
    if fields != [] {
      TextReads(values[1..], fields[1..]);
      PaddedReads(values[0], fields[0].width);
      HeadReads(Padded(values[0], fields[0].width), fields[0].after, Text(values[1..], fields[1..]));
      assert values == [values[0]] + values[1..];
    }
  }

  lemma HeadReads(head: string, after: char, rest: string)
    ensures var s := (head + [after]) + rest;
            |s| > |head| && s[|head|] == after && s[..|head|] == head && s[|head| + 1..] == rest
  {
  }

  predicate LexLess(a: seq<nat>, b: seq<nat>)
    requires |a| == |b|
  {
    a != [] && (a[0] < b[0] || (a[0] == b[0] && LexLess(a[1..], b[1..])))
  }

  /** Texts of the same fields sort as their values do. */
  lemma {:induction false} TextOrder(a: seq<nat>, b: seq<nat>, fields: seq<Field>)
    requires Fits(a, fields) && Fits(b, fields)
    ensures Before(Text(a, fields), Text(b, fields)) <==> LexLess(a, b)
    decreases |fields|
  {
    if fields != [] {
      var w, after := fields[0].width, fields[0].after;
      TextOrder(a[1..], b[1..], fields[1..]);
      PaddedOrder(a[0], b[0], w);
      PaddedOrder(b[0], a[0], w);
      PaddedReads(a[0], w);
      PaddedReads(b[0], w);
      FieldOrder(Padded(a[0], w), Padded(b[0], w), after);
      BeforeConcat(Padded(a[0], w) + [after], Padded(b[0], w) + [after], Text(a[1..], fields[1..]),
                   Text(b[1..], fields[1..]));
    }
  }

  lemma FieldOrder(p: string, q: string, after: char)
    requires |p| == |q|
    ensures Before(p + [after], q + [after]) <==> Before(p, q)
    ensures p + [after] == q + [after] <==> p == q
  {
    BeforeConcat(p, q, [after], [after]);
    assert [after][1..] == "";
    assert (p + [after])[..|p|] == p && (q + [after])[..|q|] == q;
  }

  // ----- The timestamp -----

  /** date-time of section 5.6 of RFC 3339, in UTC with three fraction digits. */
  const Rfc3339: seq<Field> :=
    [Field(4, '-'), Field(2, '-'), Field(2, 'T'), Field(2, ':'), Field(2, ':'), Field(2, '.'), Field(3, 'Z')]

  /** A day number of today or later has a positive year. */
  lemma AfterEpoch(days: nat)
    ensures ValidDate(Civil(days)) && Civil(days).year >= 1970
  {
    assert Civil(0) == Date(1970, 1, 1);
    hide Civil, DayNumber, ValidDate;
    CivilIsExact(days);
    if days > 0 { CivilFollowsCalendar(0, days); }
  }

  /** The field values for a reading of `seconds` and a fraction of `millis`. */
  function Values(seconds: nat, millis: nat): seq<nat> {
    AfterEpoch(seconds / 86400);
    var d, t := Civil(seconds / 86400), seconds % 86400;
    [d.year, d.month, d.day, t / 3600, t % 3600 / 60, t % 60, millis]
  }

  /** `now`, for the readings `first` and `second` of the clock in milliseconds. */
  function Stamp(first: nat, second: nat): string {
    Text(Values(first / 1000, second % 1000), Rfc3339)
  }

  predicate InRange(v: seq<nat>) {
    |v| == 7 && ValidDate(Date(v[0], v[1], v[2])) && v[3] < 24 && v[4] < 60 && v[5] < 60 && v[6] < 1000
  }

  /** The instant, in milliseconds, that field values denote. */
  function Instant(v: seq<nat>): int
    requires InRange(v)
  {
    (((DayNumber(Date(v[0], v[1], v[2])) * 24 + v[3]) * 60 + v[4]) * 60 + v[5]) * 1000 + v[6]
  }

  lemma ValuesAreExact(seconds: nat, millis: nat)
    requires millis < 1000
    ensures InRange(Values(seconds, millis)) && Instant(Values(seconds, millis)) == 1000 * seconds + millis
  {
    CivilIsExact(seconds / 86400);
    hide Civil, DayNumber, ValidDate;
    ClockParts(seconds);
  }

  lemma ClockParts(seconds: nat)
    ensures var t := seconds % 86400;
            && 0 <= t / 3600 < 24 && 0 <= t % 3600 / 60 < 60
            && ((seconds / 86400 * 24 + t / 3600) * 60 + t % 3600 / 60) * 60 + t % 60 == seconds
  {
    var t := seconds % 86400;
    assert seconds == seconds / 86400 * 86400 + t;
    assert t == t / 3600 * 3600 + t % 3600;
    assert t % 3600 == t % 3600 / 60 * 60 + t % 3600 % 60;
    assert t % 3600 % 60 == t % 60;
  }

  lemma RangeFits(v: seq<nat>)
    requires InRange(v) && v[0] <= 9999
    ensures Fits(v, Rfc3339)
  {
    assert Power(1) == 10 * Power(0);
    assert Power(2) == 10 * Power(1);
    assert Power(3) == 10 * Power(2);
    assert Power(4) == 10 * Power(3);
  }

  /** The first millisecond of the year 10000. */
  const END_OF_YEAR_9999: nat := 253_402_300_800_000

  lemma FourDigitYear(first: nat)
    requires first < END_OF_YEAR_9999
    ensures Civil(first / 1000 / 86400).year <= 9999
  {
    var end := Date(10000, 1, 1);
    assert DayNumber(end) == 2932897;
    hide Civil, DayNumber;
    CivilInvertsDayNumber(end);
    assert first / 1000 / 86400 < 2932897;
    CivilFollowsCalendar(first / 1000 / 86400, 2932897);
  }

  /** What the stamp denotes: the second of the first reading with the fraction of the second. */
  function Denoted(first: nat, second: nat): int {
    first / 1000 * 1000 + second % 1000
  }

  /** Up to the year 9999 the stamp has the shape of section 5.6 of RFC 3339, its fields are in
      range, and they denote that instant. */
  lemma StampIsWellFormed(first: nat, second: nat)
    requires first < END_OF_YEAR_9999
    ensures var v := Read(Stamp(first, second), Rfc3339);
            v.Some? && InRange(v.value) && Instant(v.value) == Denoted(first, second)
  {
    FourDigitYear(first);
    var v := Values(first / 1000, second % 1000);
    ValuesAreExact(first / 1000, second % 1000);
    RangeFits(v);
    TextReads(v, Rfc3339);
  }

  /** Field values in range compare as the instants they denote. */
  lemma LexIsTime(v: seq<nat>, w: seq<nat>)
    requires InRange(v) && InRange(w) && LexLess(v, w)
    ensures Instant(v) < Instant(w)
  {
    hide DayNumber, ValidDate;
    var a, b := Date(v[0], v[1], v[2]), Date(w[0], w[1], w[2]);
    LexUnfolds(v, w);
    if Earlier(a, b) { DayNumberIsMonotone(a, b); }
  }

  lemma LexUnfolds(v: seq<nat>, w: seq<nat>)
    requires |v| == |w| == 7 && LexLess(v, w)
    ensures var a, b := Date(v[0], v[1], v[2]), Date(w[0], w[1], w[2]);
            Earlier(a, b) || (a == b &&
                              (v[3] < w[3] || (v[3] == w[3] &&
                                               (v[4] < w[4] || (v[4] == w[4] &&
                                                                (v[5] < w[5] || (v[5] == w[5] && v[6] < w[6])))))))
  {
    LexAt(v, w);
    if v[0] == w[0] {
      LexAt(v[1..], w[1..]);
      if v[1] == w[1] {
        LexAt(v[2..], w[2..]);
        if v[2] == w[2] {
          LexAt(v[3..], w[3..]);
          if v[3] == w[3] {
            LexAt(v[4..], w[4..]);
            if v[4] == w[4] {
              LexAt(v[5..], w[5..]);
              if v[5] == w[5] { LexAt(v[6..], w[6..]); }
            }
          }
        }
      }
    }
  }

  lemma LexAt(v: seq<nat>, w: seq<nat>)
    requires |v| == |w| > 0 && LexLess(v, w)
    ensures v[0] < w[0] || (v[0] == w[0] && LexLess(v[1..], w[1..]))
  {
  }

  lemma {:induction false} LexTotal(v: seq<nat>, w: seq<nat>)
    requires |v| == |w|
    ensures LexLess(v, w) || v == w || LexLess(w, v)
  {
    if v != [] {
      LexTotal(v[1..], w[1..]);
      assert v == [v[0]] + v[1..] && w == [w[0]] + w[1..];
    }
  }

  /** Stamps sort, as texts, by the instants they denote. */
  lemma StampsSort(first: nat, second: nat, first': nat, second': nat)
    requires first < END_OF_YEAR_9999 && first' < END_OF_YEAR_9999
    ensures Before(Stamp(first, second), Stamp(first', second')) <==> Denoted(first, second) < Denoted(first', second')
  {
    FourDigitYear(first);
    FourDigitYear(first');
    var v, w := Values(first / 1000, second % 1000), Values(first' / 1000, second' % 1000);
    ValuesAreExact(first / 1000, second % 1000);
    ValuesAreExact(first' / 1000, second' % 1000);
    RangeFits(v);
    RangeFits(w);
    hide Text, Before, InRange, Instant, LexLess, Fits, Values, Civil;
    TextOrder(v, w, Rfc3339);
    LexTotal(v, w);
    if LexLess(v, w) { LexIsTime(v, w); }
    if LexLess(w, v) { LexIsTime(w, v); }
  }

  /** The second call of two can read its seconds just before a tick and its milliseconds just
      after it, and then its stamp is the earlier one. */
  lemma StampsCanStepBack(first: nat, second: nat, earlier: nat)
    requires first == 999 && second == 1000 && earlier == 500
    ensures Before(Stamp(first, second), Stamp(earlier, earlier))
  {
    hide Stamp, Before;
    StampsSort(first, second, earlier, earlier);
  }

  /** A stamp is not before any stamp of an earlier call exactly when its milliseconds did not wrap
      between the two readings. */
  lemma StampsIncreaseExactly(first: nat, second: nat)
    requires first <= second && first < END_OF_YEAR_9999
    ensures (forall f: nat, s: nat | f <= s <= first :: !Before(Stamp(first, second), Stamp(f, s))) <==>
            first % 1000 <= second % 1000
  {
    hide Civil, Stamp, Before;
    forall f: nat, s: nat | f <= s <= first
      ensures Before(Stamp(first, second), Stamp(f, s)) <==> Denoted(first, second) < Denoted(f, s)
      ensures Denoted(f, s) <= first
    {
      StampsSort(first, second, f, s);
      assert f / 1000 <= s / 1000;
    }
    if first % 1000 > second % 1000 {
      assert Before(Stamp(first, second), Stamp(first, first));
    }
  }
}
