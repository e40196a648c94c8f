/** `datetime.fromtimestamp(ts, tz=BRT).strftime(...)`, the way both stores render the epoch
    time of a response. The time-zone database is not modelled: the conversion of an epoch
    second to a wall-clock reading in America/Sao_Paulo is a parameter (`Zone`). What is
    modelled is the argument check of `fromtimestamp` and the text `strftime` produces. */
module Timestamps {
  import opened Wrappers
  import opened JsonValue
  import opened Exceptions
  import opened Text

  /** A wall-clock reading of an aware `datetime`: the local date and time and the offset
      of the zone from UTC, in seconds. */
  datatype LocalTime = LocalTime(year: int, month: int, day: int,
                                 hour: int, minute: int, second: int, utcOffset: int)

  /** The ranges `datetime` guarantees for its fields and for `utcoffset()`. */
  predicate ValidTime(t: LocalTime)
  {
    1 <= t.year <= 9999 && 1 <= t.month <= 12 && 1 <= t.day <= 31 &&
    0 <= t.hour < 24 && 0 <= t.minute < 60 && 0 <= t.second < 60 &&
    -86400 < t.utcOffset < 86400
  }

  /** What the conversion of one epoch second yields: a valid reading, or the exception
      `fromtimestamp` raises for a timestamp out of range. */
  type Reading = r: Result<LocalTime, PyException> | r.Success? ==> ValidTime(r.value)
    witness Failure(PyException(ValueError, "year is out of range"))

  /** The conversion of epoch seconds to wall-clock time in the configured zone. */
  type Zone = int -> Reading

  /** `datetime.fromtimestamp(ts, tz)`: an int (or a bool, which is an int) is converted;
      any other value is refused before the zone is consulted. */
  function FromTimestamp(zone: Zone, ts: Json): (r: Result<LocalTime, PyException>)
    ensures r.Success? ==> ValidTime(r.value)
    ensures ts.JInt? ==> r == zone(ts.i)
    ensures !ts.JInt? && !ts.JBool? ==> r.Failure? && r.error.kind == TypeError
  {
    match ts
    case JInt(i) => zone(i)
    case JBool(b) => zone(if b then 1 else 0)
    case _ => Failure(PyException(TypeError, "'" + TypeName(ts) + "' object cannot be interpreted as an integer"))
  }

  /** `%Y-%m-%d`. */
  function DatePart(t: LocalTime): string
    requires ValidTime(t)
  {
    ZeroPad(t.year, 4) + "-" + ZeroPad(t.month, 2) + "-" + ZeroPad(t.day, 2)
  }

  /** `%H:%M:%S`. */
  function ClockPart(t: LocalTime): string
    requires ValidTime(t)
  {
    ZeroPad(t.hour, 2) + ":" + ZeroPad(t.minute, 2) + ":" + ZeroPad(t.second, 2)
  }

  /** The magnitude of an offset. */
  function Magnitude(offset: int): (a: nat)
    ensures a == offset || a == -offset
  {
    if offset < 0 then -offset else offset
  }

  /** The digits of `%z` for an offset of magnitude `a`: hours and minutes, and seconds when
      there are any. */
  function OffsetDigits(a: nat): string
    requires a < 86400
  {
    ZeroPad(a / 3600, 2) + ZeroPad(a % 3600 / 60, 2) + (if a % 60 == 0 then "" else ZeroPad(a % 60, 2))
  }

  /** `%z`: the sign of the offset, then its digits. */
  function OffsetPart(t: LocalTime): string
    requires ValidTime(t)
  {
    (if t.utcOffset < 0 then "-" else "+") + OffsetDigits(Magnitude(t.utcOffset))
  }

  /** `strftime("%Y-%m-%d %H:%M:%S")`. */
  function FormatPlain(t: LocalTime): string
    requires ValidTime(t)
  {
    DatePart(t) + " " + ClockPart(t)
  }

  /** `strftime("%Y-%m-%d %H:%M:%S %z")`. */
  function FormatWithOffset(t: LocalTime): string
    requires ValidTime(t)
  {
    FormatPlain(t) + " " + OffsetPart(t)
  }

  /** The digits of `s[lo..lo+w]`, read as a number. */
  predicate FieldReads(s: string, lo: nat, w: nat, n: int)
  {
    lo + w <= |s| && IsDigits(s[lo..lo + w]) && DigitsValue(s[lo..lo + w]) == n
  }

  /** Three texts joined by a one-character separator: where each one sits. */
  lemma JoinedByChar(x: string, c: char, y: string, z: string)
    ensures |x + [c] + y + [c] + z| == |x| + |y| + |z| + 2
    ensures (x + [c] + y + [c] + z)[|x|] == c && (x + [c] + y + [c] + z)[|x| + 1 + |y|] == c
    ensures (x + [c] + y + [c] + z)[0..|x|] == x
    ensures (x + [c] + y + [c] + z)[|x| + 1..|x| + 1 + |y|] == y
    ensures (x + [c] + y + [c] + z)[|x| + |y| + 2..|x| + |y| + 2 + |z|] == z
  {
  }

  /** Three numeric fields joined by a one-character separator each read back in place. */
  lemma JoinedFieldsRead(x: string, c: char, y: string, z: string, nx: int, ny: int, nz: int)
    requires FieldReads(x, 0, |x|, nx) && FieldReads(y, 0, |y|, ny) && FieldReads(z, 0, |z|, nz)
    ensures |x + [c] + y + [c] + z| == |x| + |y| + |z| + 2
    ensures (x + [c] + y + [c] + z)[|x|] == c && (x + [c] + y + [c] + z)[|x| + 1 + |y|] == c
    ensures FieldReads(x + [c] + y + [c] + z, 0, |x|, nx)
    ensures FieldReads(x + [c] + y + [c] + z, |x| + 1, |y|, ny)
    ensures FieldReads(x + [c] + y + [c] + z, |x| + |y| + 2, |z|, nz)
  {
    JoinedByChar(x, c, y, z);
    assert x[0..|x|] == x && y[0..|y|] == y && z[0..|z|] == z;
  }

  /** A zero-padded field of `w` digits reads back as its number. */
  lemma PaddedReads(n: nat, w: nat)
    requires 1 <= w && n < Pow10(w)
    ensures |ZeroPad(n, w)| == w && FieldReads(ZeroPad(n, w), 0, w, n)
  {
    ZeroPadRoundTrip(n, w);
    assert ZeroPad(n, w)[0..w] == ZeroPad(n, w);
  }

  lemma DatePartParses(t: LocalTime)
    requires ValidTime(t)
    ensures |DatePart(t)| == 10 && DatePart(t)[4] == '-' && DatePart(t)[7] == '-'
    ensures FieldReads(DatePart(t), 0, 4, t.year) && FieldReads(DatePart(t), 5, 2, t.month)
    ensures FieldReads(DatePart(t), 8, 2, t.day)
  {
    PaddedReads(t.year, 4);
    PaddedReads(t.month, 2);
    PaddedReads(t.day, 2);
    JoinedFieldsRead(ZeroPad(t.year, 4), '-', ZeroPad(t.month, 2), ZeroPad(t.day, 2), t.year, t.month, t.day);
  }

  lemma ClockPartParses(t: LocalTime)
    requires ValidTime(t)
    ensures |ClockPart(t)| == 8 && ClockPart(t)[2] == ':' && ClockPart(t)[5] == ':'
    ensures FieldReads(ClockPart(t), 0, 2, t.hour) && FieldReads(ClockPart(t), 3, 2, t.minute)
    ensures FieldReads(ClockPart(t), 6, 2, t.second)
  {
    PaddedReads(t.hour, 2);
    PaddedReads(t.minute, 2);
    PaddedReads(t.second, 2);
    JoinedFieldsRead(ZeroPad(t.hour, 2), ':', ZeroPad(t.minute, 2), ZeroPad(t.second, 2), t.hour, t.minute, t.second);
  }

  /** A field of a text still reads back once more text follows it, or comes before it. */
  lemma FieldReadsExtended(x: string, y: string, lo: nat, w: nat, n: int)
    requires FieldReads(x, lo, w, n)
    ensures FieldReads(x + y, lo, w, n)
  {
    assert (x + y)[lo..lo + w] == x[lo..lo + w];
  }

  lemma FieldReadsShifted(x: string, y: string, lo: nat, w: nat, n: int)
    requires FieldReads(y, lo, w, n)
    ensures FieldReads(x + y, |x| + lo, w, n)
  {
    assert (x + y)[|x| + lo..|x| + lo + w] == y[lo..lo + w];
  }

  /** The plain rendering is 19 characters, `YYYY-MM-DD HH:MM:SS`, and every field reads back
      as the value it renders. */
  lemma FormatPlainParses(t: LocalTime)
    requires ValidTime(t)
    ensures |FormatPlain(t)| == 19
    ensures FormatPlain(t)[4] == '-' && FormatPlain(t)[7] == '-' && FormatPlain(t)[10] == ' '
    ensures FormatPlain(t)[13] == ':' && FormatPlain(t)[16] == ':'
    ensures FieldReads(FormatPlain(t), 0, 4, t.year) && FieldReads(FormatPlain(t), 5, 2, t.month)
    ensures FieldReads(FormatPlain(t), 8, 2, t.day) && FieldReads(FormatPlain(t), 11, 2, t.hour)
    ensures FieldReads(FormatPlain(t), 14, 2, t.minute) && FieldReads(FormatPlain(t), 17, 2, t.second)
  {
    var date, clock := DatePart(t), ClockPart(t);
    DatePartParses(t);
    ClockPartParses(t);
    var head := date + " ";
    FieldReadsExtended(date, " ", 0, 4, t.year);
    FieldReadsExtended(date, " ", 5, 2, t.month);
    FieldReadsExtended(date, " ", 8, 2, t.day);
    FieldReadsExtended(head, clock, 0, 4, t.year);
    FieldReadsExtended(head, clock, 5, 2, t.month);
    FieldReadsExtended(head, clock, 8, 2, t.day);
    FieldReadsShifted(head, clock, 0, 2, t.hour);
    FieldReadsShifted(head, clock, 3, 2, t.minute);
    FieldReadsShifted(head, clock, 6, 2, t.second);
    assert FormatPlain(t) == head + clock;
  }

  /** The hours, minutes and seconds of an offset under a day each fit in two digits. */
  lemma OffsetFieldBounds(a: nat)
    requires a < 86400
    ensures a / 3600 < 100 && a % 3600 / 60 < 100 && a % 60 < 100
  {
  }

  /** An offset and its magnitude are whole minutes together. */
  lemma WholeMinutesOfMagnitude(x: int)
    ensures Magnitude(x) % 60 == 0 <==> x % 60 == 0
  {
    if x < 0 {
      if x % 60 == 0 {
        assert -x == 60 * -(x / 60);
      }
      if (-x) % 60 == 0 {
        assert x == 60 * -((-x) / 60);
      }
    }
  }

  /** A one-character sign before the digits shifts each of their fields by one. */
  lemma SignedDigitsRead(sign: string, digits: string, h: int, m: int)
    requires |sign| == 1 && FieldReads(digits, 0, 2, h) && FieldReads(digits, 2, 2, m)
    ensures |sign + digits| == |digits| + 1 && (sign + digits)[0] == sign[0]
    ensures FieldReads(sign + digits, 1, 2, h) && FieldReads(sign + digits, 3, 2, m)
  {
    FieldReadsShifted(sign, digits, 0, 2, h);
    FieldReadsShifted(sign, digits, 2, 2, m);
  }

  /** Two two-digit fields and a tail: where each one sits. */
  lemma TwoFieldsRead(hh: string, mm: string, ss: string, nh: int, nm: int)
    requires |hh| == 2 && |mm| == 2 && FieldReads(hh, 0, 2, nh) && FieldReads(mm, 0, 2, nm)
    ensures |hh + mm + ss| == 4 + |ss|
    ensures FieldReads(hh + mm + ss, 0, 2, nh) && FieldReads(hh + mm + ss, 2, 2, nm)
  {
    var s := hh + mm + ss;
    assert s[0..2] == hh[0..2];
    assert s[2..4] == mm[0..2];
  }

  /** The digits of `%z` are four, or six when the offset has seconds, and the first two
      pairs read back as its hours and minutes. */
  lemma OffsetDigitsParse(a: nat)
    requires a < 86400
    ensures |OffsetDigits(a)| == if a % 60 == 0 then 4 else 6
    ensures FieldReads(OffsetDigits(a), 0, 2, a / 3600) && FieldReads(OffsetDigits(a), 2, 2, a % 3600 / 60)
  {
    OffsetFieldBounds(a);
    var h, m, sec := a / 3600, a % 3600 / 60, a % 60;
    var ss := if sec == 0 then "" else ZeroPad(sec, 2);
    PaddedReads(h, 2);
    PaddedReads(m, 2);
    PaddedReads(sec, 2);
    TwoFieldsRead(ZeroPad(h, 2), ZeroPad(m, 2), ss, h, m);
  }

  /** The `%z` field is a sign followed by four digits, or six when the offset has seconds,
      and the digits read back as the magnitude of the offset. */
  lemma OffsetPartParses(t: LocalTime)
    requires ValidTime(t)
    ensures |OffsetPart(t)| == if t.utcOffset % 60 == 0 then 5 else 7
    ensures OffsetPart(t)[0] == if t.utcOffset < 0 then '-' else '+'
    ensures var a := Magnitude(t.utcOffset);
            FieldReads(OffsetPart(t), 1, 2, a / 3600) && FieldReads(OffsetPart(t), 3, 2, a % 3600 / 60)
  {
    var a := Magnitude(t.utcOffset);
    WholeMinutesOfMagnitude(t.utcOffset);
    OffsetDigitsParse(a);
    SignedDigitsRead(if t.utcOffset < 0 then "-" else "+", OffsetDigits(a), a / 3600, a % 3600 / 60);
  }

  /** The rendering with `%z` is the plain rendering followed by a space and the offset:
      25 characters for a whole-minute offset such as `-0300`. */
  lemma FormatWithOffsetExtendsPlain(t: LocalTime)
    requires ValidTime(t)
    ensures FormatWithOffset(t)[..19] == FormatPlain(t)
    ensures FormatWithOffset(t)[19] == ' '
    ensures FormatWithOffset(t)[20] == '+' || FormatWithOffset(t)[20] == '-'
    ensures |FormatWithOffset(t)| == if t.utcOffset % 60 == 0 then 25 else 27
  {
    FormatPlainParses(t);
    OffsetPartParses(t);
  }
}
