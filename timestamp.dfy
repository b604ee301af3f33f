/**
 * `parse_googles_funky_timestamp`: `datetime.strptime(value,
 * "%Y:%m:%d %H:%M:%S")`, the timestamp Google Drive puts in an image's
 * media metadata.
 *
 * strptime turns the format into a regular expression, one alternation per
 * directive, and the space into `\s+`; it matches that expression at the
 * start of the text, refuses text left over after the match, and then builds
 * a `date` and a `datetime` from the captured numbers, which refuse values
 * outside the calendar. The three steps are the three functions
 * `MatchFormat`, `ParseTimestamp`'s end check and `IsValid`.
 */
module Timestamp {
  import opened Wrappers
  import opened PyText

  /** A naive `datetime` with whole seconds. */
  datatype DateTime = DateTime(year: int, month: int, day: int, hour: int, minute: int, second: int)

  /** The ValueError strptime raises, by cause. */
  datatype TimestampError =
    | NoMatch                       // the text does not match the format
    | UnconvertedData(rest: string) // text is left over after the match
    | OutOfRange                    // date() or datetime() refused a field

  predicate IsLeapYear(y: int) {
    y % 4 == 0 && (y % 100 != 0 || y % 400 == 0)
  }

  /** Length of month `m` of year `y` in the proleptic Gregorian calendar that `date` uses. */
  function DaysInMonth(y: int, m: int): (n: int)
    requires 1 <= m <= 12
    ensures 28 <= n <= 31
  {
    if m == 2 then (if IsLeapYear(y) then 29 else 28)
    else if m == 4 || m == 6 || m == 9 || m == 11 then 30
    else 31
  }

  /**
   * What `date` and `datetime` accept: years 1 to 9999, a day of that month, a time of day.
   * Every such value can be written in the format and lies within its alternations.
   */
  predicate IsValid(dt: DateTime): (b: bool)
    ensures b ==> Formattable(dt) && MatchesPattern(dt)
  {
    && 1 <= dt.year <= 9999
    && 1 <= dt.month <= 12
    && 1 <= dt.day <= DaysInMonth(dt.year, dt.month)
    && 0 <= dt.hour <= 23
    && 0 <= dt.minute <= 59
    && 0 <= dt.second <= 59
  }

  /** Days in the months before month `m`. */
  function DaysBefore(y: int, m: int): nat
    requires 1 <= m <= 13
  {
    if m == 1 then 0 else DaysBefore(y, m - 1) + DaysInMonth(y, m - 1)
  }

  /** The twelve months make a year of 365 days, or 366 in a leap year. */
  lemma YearLength(y: int)
    ensures DaysBefore(y, 13) == if IsLeapYear(y) then 366 else 365
  {
    var feb := DaysInMonth(y, 2);
    assert DaysBefore(y, 2) == 31;
    assert DaysBefore(y, 3) == 31 + feb;
    assert DaysBefore(y, 4) == 62 + feb;
    assert DaysBefore(y, 5) == 92 + feb;
    assert DaysBefore(y, 6) == 123 + feb;
    assert DaysBefore(y, 7) == 153 + feb;
    assert DaysBefore(y, 8) == 184 + feb;
    assert DaysBefore(y, 9) == 215 + feb;
    assert DaysBefore(y, 10) == 245 + feb;
    assert DaysBefore(y, 11) == 276 + feb;
    assert DaysBefore(y, 12) == 306 + feb;
  }

  /** The Gregorian rule: every fourth year, except centuries not divisible by 400. */
  lemma LeapYearExamples()
    ensures IsLeapYear(2024) && !IsLeapYear(2023) && IsLeapYear(2000) && !IsLeapYear(1900)
  {
  }

  /** 29 February exists exactly in the leap years `date` can represent. */
  lemma LeapDayValid(y: int)
    ensures IsValid(DateTime(y, 2, 29, 0, 0, 0)) <==> 1 <= y <= 9999 && IsLeapYear(y)
  {
  }

  // ------------------------------------------------------------ the pattern

  /** The directives that are followed by a separator. */
  datatype Directive = Month | Day | Hour | Minute

  /**
   * The two-character alternatives of each directive's expression:
   * %m `1[0-2]|0[1-9]`, %d `3[01]|[12]\d|0[1-9]| [1-9]`, %H `2[0-3]|[01]\d`,
   * %M `[0-5]\d`.
   */
  predicate TwoCharAlt(d: Directive, a: char, b: char) {
    match d
    case Month => (a == '1' && '0' <= b <= '2') || (a == '0' && '1' <= b <= '9')
    case Day =>
      || (a == '3' && '0' <= b <= '1')
      || ('1' <= a <= '2' && IsDigit(b))
      || (a == '0' && '1' <= b <= '9')
      || (a == ' ' && '1' <= b <= '9')
    case Hour => (a == '2' && '0' <= b <= '3') || ('0' <= a <= '1' && IsDigit(b))
    case Minute => '0' <= a <= '5' && IsDigit(b)
  }

  /** The one-character alternative: `[1-9]` for %m and %d, `\d` for %H and %M. */
  predicate OneCharAlt(d: Directive, a: char) {
    match d
    case Month => '1' <= a <= '9'
    case Day => '1' <= a <= '9'
    case Hour => IsDigit(a)
    case Minute => IsDigit(a)
  }

  /** The literal after each directive: `:` after %m, %H, %M; `\s+` after %d. */
  predicate IsSeparator(d: Directive, c: char) {
    if d == Day then IsSpace(c) else c == ':'
  }

  /** A captured field: one or two digits, or a space and one digit (the ` [1-9]` day). */
  predicate IsFieldToken(t: string) {
    || (|t| == 1 && IsDigit(t[0]))
    || (|t| == 2 && (IsDigit(t[0]) || t[0] == ' ') && IsDigit(t[1]))
  }

  /** The four digits `\d\d\d\d` of %Y. */
  predicate IsYearToken(t: string) {
    |t| == 4 && IsDigit(t[0]) && IsDigit(t[1]) && IsDigit(t[2]) && IsDigit(t[3])
  }

  /**
   * Length of the field directive `d` captures at `p`. Every alternation tries
   * its digit-led two-character alternatives before `[1-9]` or `\d`; the one
   * exception, the ` [1-9]` of %d that comes last, starts with a space and so
   * never competes with `[1-9]`. The separator after the field is never a
   * digit, so the regular expression, backtracking, ends up with the
   * two-character alternative exactly when it is followed by the separator,
   * and otherwise with the one-character one when that is.
   */
  function FieldLength(d: Directive, s: string, p: nat): (r: Option<nat>)
    ensures r.Some? ==> (r.value == 1 || r.value == 2) && p + r.value < |s|
    ensures r.Some? ==> IsFieldToken(s[p..p + r.value]) && IsSeparator(d, s[p + r.value])
    ensures r == Some(2) ==> TwoCharAlt(d, s[p], s[p + 1])
    ensures r == Some(1) ==> OneCharAlt(d, s[p])
  {
    if p + 2 < |s| && TwoCharAlt(d, s[p], s[p + 1]) && IsSeparator(d, s[p + 2]) then
      assert s[p..p + 2] == [s[p], s[p + 1]];
      Some(2)
    else if p + 1 < |s| && OneCharAlt(d, s[p]) && IsSeparator(d, s[p + 1]) then
      assert s[p..p + 1] == [s[p]];
      Some(1)
    else None
  }

  /**
   * Length of the %S field at `p`, the last item of the pattern: the first
   * alternative of `6[01]|[0-5]\d|\d` that matches there, since nothing after
   * it can make the match fail.
   */
  function SecondLength(s: string, p: nat): (r: Option<nat>)
    ensures r.Some? ==> (r.value == 1 || r.value == 2) && p + r.value <= |s|
    ensures r.Some? ==> IsDigit(s[p]) && (r.value == 2 ==> IsDigit(s[p + 1]))
  {
    if p + 1 < |s| && s[p] == '6' && '0' <= s[p + 1] <= '1' then Some(2)
    else if p + 1 < |s| && '0' <= s[p] <= '5' && IsDigit(s[p + 1]) then Some(2)
    else if p < |s| && IsDigit(s[p]) then Some(1)
    else None
  }

  /** Length of the run of whitespace at `p`: `\s+` is greedy and the hour after it starts with a digit. */
  function SpaceRun(s: string, p: nat): (n: nat)
    requires p <= |s|
    ensures p + n <= |s|
    decreases |s| - p
  {
    if p < |s| && IsSpace(s[p]) then 1 + SpaceRun(s, p + 1) else 0
  }

  /** The run consumes whitespace only, and all of it. */
  lemma {:induction false} SpaceRunIsSpaces(s: string, p: nat)
    requires p <= |s|
    ensures forall k :: p <= k < p + SpaceRun(s, p) ==> IsSpace(s[k])
    ensures p + SpaceRun(s, p) == |s| || !IsSpace(s[p + SpaceRun(s, p)])
    decreases |s| - p
  {
    if p < |s| && IsSpace(s[p]) {
      SpaceRunIsSpaces(s, p + 1);
    }
  }

  /** The six captured fields and where the match ends. */
  datatype Captures = Captures(year: string, month: string, day: string,
                               hour: string, minute: string, second: string, end: nat)

  predicate WellFormed(c: Captures) {
    && IsYearToken(c.year)
    && IsFieldToken(c.month) && IsFieldToken(c.day) && IsFieldToken(c.hour)
    && IsFieldToken(c.minute) && IsFieldToken(c.second)
  }

  /** Three captured fields and the position after the last of them. */
  datatype Part = Part(first: string, second: string, third: string, end: nat)

  /** The date half, `(\d\d\d\d):(%m):(%d)`, at the start of `s`. */
  function MatchDate(s: string): (m: Option<Part>)
    ensures m.Some? ==> m.value.end < |s| && IsSpace(s[m.value.end])
    ensures m.Some? ==> IsYearToken(m.value.first)
    ensures m.Some? ==> IsFieldToken(m.value.second) && IsFieldToken(m.value.third)
  {
    if !(4 < |s| && IsYearToken(s[..4]) && s[4] == ':') then None
    else
      match FieldLength(Month, s, 5)
      case None => None
      case Some(ml) =>
        var p := 5 + ml + 1;
        match FieldLength(Day, s, p)
        case None => None
        case Some(dl) => Some(Part(s[..4], s[5..5 + ml], s[p..p + dl], p + dl))
  }

  /** The time half, `(%H):(%M):(%S)`, at position `p` of `s`. */
  function MatchTime(s: string, p: nat): (m: Option<Part>)
    ensures m.Some? ==> p <= m.value.end <= |s|
    ensures m.Some? ==> IsFieldToken(m.value.first) && IsFieldToken(m.value.second) && IsFieldToken(m.value.third)
  {
    match FieldLength(Hour, s, p)
    case None => None
    case Some(hl) =>
      var q := p + hl + 1;
      match FieldLength(Minute, s, q)
      case None => None
      case Some(nl) =>
        var r := q + nl + 1;
        match SecondLength(s, r)
        case None => None
        case Some(sl) => Some(Part(s[p..p + hl], s[q..q + nl], s[r..r + sl], r + sl))
  }

  /** The match of `(\d\d\d\d):(%m):(%d)\s+(%H):(%M):(%S)` at the start of `s`. */
  function MatchFormat(s: string): (m: Option<Captures>)
    ensures m.Some? ==> WellFormed(m.value) && m.value.end <= |s|
  {
    match MatchDate(s)
    case None => None
    case Some(date) =>
      match MatchTime(s, date.end + SpaceRun(s, date.end))
      case None => None
      case Some(time) =>
        Some(Captures(date.first, date.second, date.third, time.first, time.second, time.third, time.end))
  }

  /** `int()` of a captured field: the space of a ` [1-9]` day is stripped. */
  function FieldValue(t: string): nat
    requires IsFieldToken(t) || IsYearToken(t)
  {
    if t[0] == ' ' then DigitValue(t[1]) else DecimalValue(t)
  }

  /**
   * `datetime.strptime(value, "%Y:%m:%d %H:%M:%S")`. What it returns is a
   * valid date and time of day.
   */
  function ParseTimestamp(value: string): (r: Result<DateTime, TimestampError>)
    ensures r.Success? ==> IsValid(r.value)
  {
    match MatchFormat(value)
    case None => Failure(NoMatch)
    case Some(c) =>
      if c.end < |value| then Failure(UnconvertedData(value[c.end..]))
      else
        var dt := DateTime(FieldValue(c.year), FieldValue(c.month), FieldValue(c.day),
                           FieldValue(c.hour), FieldValue(c.minute), FieldValue(c.second));
        if IsValid(dt) then Success(dt) else Failure(OutOfRange)
  }

  // ------------------------------------------------------------ formatting

  /** `n` as two decimal digits. */
  function TwoDigits(n: nat): (r: string)
    requires n < 100
    ensures |r| == 2 && AllDigits(r) && DecimalValue(r) == n
  {
    var r := [DigitChar(n / 10), DigitChar(n % 10)];
    DecimalSnoc([DigitChar(n / 10)], DigitChar(n % 10));
    DecimalSnoc([], DigitChar(n / 10));
    assert [DigitChar(n / 10)] == [] + [DigitChar(n / 10)];
    r
  }

  /** `n` as four decimal digits. */
  function FourDigits(n: nat): (r: string)
    requires n < 10000
    ensures |r| == 4 && AllDigits(r) && DecimalValue(r) == n
  {
    var hi := TwoDigits(n / 100);
    var lo := TwoDigits(n % 100);
    var r := hi + lo;
    assert r == (hi + [lo[0]]) + [lo[1]];
    DecimalSnoc(hi + [lo[0]], lo[1]);
    DecimalSnoc(hi, lo[0]);
    assert lo == [lo[0]] + [lo[1]];
    assert DecimalValue(lo) == DigitValue(lo[0]) * 10 + DigitValue(lo[1]) by {
      assert lo[..1] == [lo[0]];
      assert [lo[0]][..0] == [];
    }
    r
  }

  lemma DecimalSnoc(s: string, c: char)
    requires AllDigits(s) && IsDigit(c)
    ensures DecimalValue(s + [c]) == DecimalValue(s) * 10 + DigitValue(c)
  {
    assert (s + [c])[..|s|] == s;
  }

  /** Years and fields that the pattern's digit counts can express. */
  predicate Formattable(dt: DateTime) {
    && 0 <= dt.year < 10000
    && 0 <= dt.month < 100 && 0 <= dt.day < 100 && 0 <= dt.hour < 100
    && 0 <= dt.minute < 100 && 0 <= dt.second < 100
  }

  /** The timestamp as Drive writes it: "YYYY:MM:DD HH:MM:SS", zero-padded. */
  function Format(dt: DateTime): (r: string)
    requires Formattable(dt)
    ensures |r| == 19
  {
    FourDigits(dt.year) + ":" + TwoDigits(dt.month) + ":" + TwoDigits(dt.day) + " "
      + TwoDigits(dt.hour) + ":" + TwoDigits(dt.minute) + ":" + TwoDigits(dt.second)
  }

  /** A string that spells a formatted timestamp character by character is that timestamp. */
  lemma FormatChars(dt: DateTime, s: string)
    requires Formattable(dt) && |s| == 19
    requires var y := dt.year;
      s[0] == DigitChar(y / 100 / 10) && s[1] == DigitChar(y / 100 % 10) && s[2] == DigitChar(y % 100 / 10)
      && s[3] == DigitChar(y % 100 % 10) && s[4] == ':' && s[7] == ':' && s[10] == ' ' && s[13] == ':' && s[16] == ':'
    requires s[5] == DigitChar(dt.month / 10) && s[6] == DigitChar(dt.month % 10)
    requires s[8] == DigitChar(dt.day / 10) && s[9] == DigitChar(dt.day % 10)
    requires s[11] == DigitChar(dt.hour / 10) && s[12] == DigitChar(dt.hour % 10)
    requires s[14] == DigitChar(dt.minute / 10) && s[15] == DigitChar(dt.minute % 10)
    requires s[17] == DigitChar(dt.second / 10) && s[18] == DigitChar(dt.second % 10)
    ensures Format(dt) == s
  {
    FormattedLayout(dt, []);
    assert Format(dt) + [] == Format(dt);
  }

  /** The range each two-character alternation accepts, on two-digit numbers. */
  predicate InPattern(d: Directive, n: int) {
    match d
    case Month => 1 <= n <= 12
    case Day => 1 <= n <= 31
    case Hour => n <= 23
    case Minute => n <= 59
  }

  /** A zero-padded field followed by its separator is captured exactly when the alternation accepts it. */
  lemma TwoDigitField(d: Directive, s: string, p: nat, n: nat)
    requires n < 100 && p + 2 < |s|
    requires s[p] == DigitChar(n / 10) && s[p + 1] == DigitChar(n % 10) && IsSeparator(d, s[p + 2])
    ensures FieldLength(d, s, p) == if InPattern(d, n) then Some(2) else None
  {
    assert TwoCharAlt(d, s[p], s[p + 1]) <==> InPattern(d, n);
    assert !IsSeparator(d, s[p + 1]);
  }

  /** A zero-padded %S field: 60 and 61 are captured whole, 62 and above only by their first digit. */
  lemma TwoDigitSecond(s: string, p: nat, n: nat)
    requires n < 100 && p + 1 < |s|
    requires s[p] == DigitChar(n / 10) && s[p + 1] == DigitChar(n % 10)
    ensures SecondLength(s, p) == if n <= 61 then Some(2) else Some(1)
  {
  }

  /** The fields the pattern itself accepts, before the calendar is consulted. */
  predicate MatchesPattern(dt: DateTime) {
    InPattern(Month, dt.month) && InPattern(Day, dt.day) && InPattern(Hour, dt.hour) && InPattern(Minute, dt.minute)
  }

  /** Where each field and separator of a formatted timestamp sits. */
  lemma FormattedLayout(dt: DateTime, t: string)
    requires Formattable(dt)
    ensures var s := Format(dt) + t;
      var mo, d, h := TwoDigits(dt.month), TwoDigits(dt.day), TwoDigits(dt.hour);
      var mi, se := TwoDigits(dt.minute), TwoDigits(dt.second);
      && |s| == 19 + |t| && s[..4] == FourDigits(dt.year) && s[19..] == t
      && s[4] == ':' && s[7] == ':' && s[10] == ' ' && s[13] == ':' && s[16] == ':'
      && s[5] == mo[0] && s[6] == mo[1] && s[8] == d[0] && s[9] == d[1]
      && s[11] == h[0] && s[12] == h[1] && s[14] == mi[0] && s[15] == mi[1]
      && s[17] == se[0] && s[18] == se[1]
  {
    var s := Format(dt) + t;
    var y, mo, d := FourDigits(dt.year), TwoDigits(dt.month), TwoDigits(dt.day);
    var h, mi, se := TwoDigits(dt.hour), TwoDigits(dt.minute), TwoDigits(dt.second);
    assert s == y + ":" + mo + ":" + d + " " + h + ":" + mi + ":" + se + t;
  }

  /** The date half of a formatted timestamp. */
  lemma MatchDateFormatted(dt: DateTime, t: string)
    requires Formattable(dt)
    ensures MatchDate(Format(dt) + t) ==
      if InPattern(Month, dt.month) && InPattern(Day, dt.day)
      then Some(Part(FourDigits(dt.year), TwoDigits(dt.month), TwoDigits(dt.day), 10))
      else None
  {
    var s := Format(dt) + t;
    FormattedLayout(dt, t);
    TwoDigitField(Month, s, 5, dt.month);
    TwoDigitField(Day, s, 8, dt.day);
    assert s[5..7] == TwoDigits(dt.month) && s[8..10] == TwoDigits(dt.day);
  }

  /** The time half of a formatted timestamp, after its one space. */
  lemma MatchTimeFormatted(dt: DateTime, t: string)
    requires Formattable(dt)
    ensures var s := Format(dt) + t;
      SpaceRun(s, 10) == 1 &&
      MatchTime(s, 11) ==
        if !(InPattern(Hour, dt.hour) && InPattern(Minute, dt.minute)) then None
        else if dt.second <= 61 then
          Some(Part(TwoDigits(dt.hour), TwoDigits(dt.minute), TwoDigits(dt.second), 19))
        else
          Some(Part(TwoDigits(dt.hour), TwoDigits(dt.minute), [DigitChar(dt.second / 10)], 18))
  {
    var s := Format(dt) + t;
    var se := TwoDigits(dt.second);
    FormattedLayout(dt, t);
    assert !IsSpace(s[11]);
    TwoDigitField(Hour, s, 11, dt.hour);
    TwoDigitField(Minute, s, 14, dt.minute);
    TwoDigitSecond(s, 17, dt.second);
    assert s[11..13] == TwoDigits(dt.hour) && s[14..16] == TwoDigits(dt.minute);
    assert s[17..19] == se && s[17..18] == [se[0]];
  }

  /** How the pattern matches a formatted timestamp followed by any text. */
  lemma MatchFormatted(dt: DateTime, t: string)
    requires Formattable(dt)
    ensures var s := Format(dt) + t;
      MatchFormat(s) ==
        if !MatchesPattern(dt) then None
        else if dt.second <= 61 then
          Some(Captures(FourDigits(dt.year), TwoDigits(dt.month), TwoDigits(dt.day),
                        TwoDigits(dt.hour), TwoDigits(dt.minute), TwoDigits(dt.second), 19))
        else
          Some(Captures(FourDigits(dt.year), TwoDigits(dt.month), TwoDigits(dt.day),
                        TwoDigits(dt.hour), TwoDigits(dt.minute), [DigitChar(dt.second / 10)], 18))
  {
    MatchDateFormatted(dt, t);
    MatchTimeFormatted(dt, t);
  }

  /** A field outside its alternation makes the whole pattern fail. */
  lemma ParseNoMatch(dt: DateTime, t: string)
    requires Formattable(dt) && !MatchesPattern(dt)
    ensures ParseTimestamp(Format(dt) + t) == Failure(NoMatch)
  {
    MatchFormatted(dt, t);
  }

  /** A second of 62 to 99 is captured by its first digit only, and the rest is left over. */
  lemma ParseLongSecond(dt: DateTime, t: string)
    requires Formattable(dt) && MatchesPattern(dt) && dt.second > 61
    ensures ParseTimestamp(Format(dt) + t) == Failure(UnconvertedData([DigitChar(dt.second % 10)] + t))
  {
    var s := Format(dt) + t;
    MatchFormatted(dt, t);
    assert MatchFormat(s).value.end == 18;
    FormattedLayout(dt, t);
    assert s[18] == DigitChar(dt.second % 10);
    assert s[18..] == [s[18]] + s[19..];
  }

  /** Text after a formatted timestamp whose fields all match is left over. */
  lemma ParseTrailing(dt: DateTime, t: string)
    requires Formattable(dt) && MatchesPattern(dt) && dt.second <= 61 && t != []
    ensures ParseTimestamp(Format(dt) + t) == Failure(UnconvertedData(t))
  {
    MatchFormatted(dt, t);
    FormattedLayout(dt, t);
  }

  /** A formatted timestamp whose fields all match converts back to its own fields. */
  lemma ParseExact(dt: DateTime)
    requires Formattable(dt) && MatchesPattern(dt) && dt.second <= 61
    ensures ParseTimestamp(Format(dt)) == if IsValid(dt) then Success(dt) else Failure(OutOfRange)
  {
    MatchFormatted(dt, []);
    assert Format(dt) + [] == Format(dt);
    PaddedValue(dt.month);
    PaddedValue(dt.day);
    PaddedValue(dt.hour);
    PaddedValue(dt.minute);
    PaddedValue(dt.second);
    assert FieldValue(FourDigits(dt.year)) == dt.year;
  }

  /** `int()` of a zero-padded field gives back the number. */
  lemma PaddedValue(n: nat)
    requires n < 100
    ensures FieldValue(TwoDigits(n)) == n
  {
  }

  /** The calendar is stricter than the pattern: a valid date and time lies within every alternation. */
  lemma ValidInPattern(dt: DateTime)
    requires IsValid(dt)
    ensures Formattable(dt) && MatchesPattern(dt) && dt.second <= 61
  {
  }

  /** Round trip: every valid date and time, formatted as Drive does, parses back to itself. */
  lemma RoundTrip(dt: DateTime)
    requires IsValid(dt)
    ensures ParseTimestamp(Format(dt)) == Success(dt)
  {
    ParseExact(dt);
  }

  // ------------------------------------------------------------ rejection

  /** Colons among `s[a..b]`, counted by position. */
  function ColonsIn(s: string, a: nat, b: nat): nat
    requires a <= b <= |s|
    decreases b - a
  {
    if a == b then 0 else (if s[a] == ':' then 1 else 0) + ColonsIn(s, a + 1, b)
  }

  lemma {:induction false} ColonsInCount(s: string, a: nat, b: nat)
    requires a <= b <= |s|
    ensures ColonsIn(s, a, b) == Count(s[a..b], ':')
    decreases b - a
  {
    if a < b {
      ColonsInCount(s, a + 1, b);
      assert s[a..b][0] == s[a] && s[a..b][1..] == s[a + 1..b];
    }
  }

  lemma {:induction false} ColonsInSplit(s: string, a: nat, k: nat, b: nat)
    requires a <= k <= b <= |s|
    ensures ColonsIn(s, a, b) == ColonsIn(s, a, k) + ColonsIn(s, k, b)
    decreases k - a
  {
    if a < k {
      ColonsInSplit(s, a + 1, k, b);
    }
  }

  /** No colon in a run of characters none of which is a colon. */
  lemma {:induction false} NoColonIn(s: string, a: nat, b: nat)
    requires a <= b <= |s|
    requires forall k :: a <= k < b ==> s[k] != ':'
    ensures ColonsIn(s, a, b) == 0
    decreases b - a
  {
    if a < b {
      NoColonIn(s, a + 1, b);
    }
  }

  /** A field token followed by a colon, at `a`: one colon from `a` to the end of the colon. */
  lemma FieldThenColon(s: string, a: nat, b: nat)
    requires a <= b < |s| && (IsFieldToken(s[a..b]) || IsYearToken(s[a..b])) && s[b] == ':'
    ensures ColonsIn(s, a, b + 1) == 1
  {
    forall k | a <= k < b ensures s[k] != ':' {
      assert s[a..b][k - a] == s[k];
    }
    NoColonIn(s, a, b);
    ColonsInSplit(s, a, b, b + 1);
  }

  /** A field token holds no colon. */
  lemma FieldHasNoColon(s: string, a: nat, b: nat)
    requires a <= b <= |s| && IsFieldToken(s[a..b])
    ensures ColonsIn(s, a, b) == 0
  {
    forall k | a <= k < b ensures s[k] != ':' {
      assert s[a..b][k - a] == s[k];
    }
    NoColonIn(s, a, b);
  }

  /** The date half, with the spaces after it, holds two colons. */
  lemma DateHasTwoColons(s: string)
    requires MatchDate(s).Some?
    ensures var d := MatchDate(s).value.end;
      d + SpaceRun(s, d) <= |s| && ColonsIn(s, 0, d + SpaceRun(s, d)) == 2
  {
    var ml := FieldLength(Month, s, 5).value;
    var p := 5 + ml + 1;
    var d := MatchDate(s).value.end;
    var q := d + SpaceRun(s, d);
    assert IsYearToken(s[0..4]) by { assert s[0..4] == s[..4]; }
    FieldThenColon(s, 0, 4);
    FieldThenColon(s, 5, 5 + ml);
    FieldHasNoColon(s, p, d);
    SpaceRunIsSpaces(s, d);
    NoColonIn(s, d, q);
    ColonsInSplit(s, p, d, q);
    ColonsInSplit(s, 5, p, q);
    ColonsInSplit(s, 0, 5, q);
  }

  /** The time half holds two colons. */
  lemma TimeHasTwoColons(s: string, p: nat)
    requires MatchTime(s, p).Some?
    ensures ColonsIn(s, p, MatchTime(s, p).value.end) == 2
  {
    var hl := FieldLength(Hour, s, p).value;
    var q := p + hl + 1;
    var nl := FieldLength(Minute, s, q).value;
    var r := q + nl + 1;
    var e := MatchTime(s, p).value.end;
    FieldThenColon(s, p, p + hl);
    FieldThenColon(s, q, q + nl);
    FieldHasNoColon(s, r, e);
    ColonsInSplit(s, q, r, e);
    ColonsInSplit(s, p, q, e);
  }

  /** What the pattern matches holds exactly four colons. */
  lemma MatchHasFourColons(s: string)
    requires MatchFormat(s).Some?
    ensures Count(s[..MatchFormat(s).value.end], ':') == 4
  {
    var d := MatchDate(s).value.end;
    var p := d + SpaceRun(s, d);
    var e := MatchTime(s, p).value.end;
    assert MatchFormat(s).value.end == e;
    DateHasTwoColons(s);
    TimeHasTwoColons(s, p);
    ColonsInSplit(s, 0, p, e);
    ColonsInCount(s, 0, e);
    assert s[..e] == s[0..e];
  }

  /**
   * A timestamp with a missing or extra component, or with another separator
   * where a colon belongs, is rejected: whatever parses has exactly four colons.
   */
  lemma ParsedHasFourColons(value: string)
    requires ParseTimestamp(value).Success?
    ensures Count(value, ':') == 4
  {
    MatchHasFourColons(value);
    assert value[..MatchFormat(value).value.end] == value;
  }
}
