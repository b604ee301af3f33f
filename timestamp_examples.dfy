/** Worked inputs for the Drive timestamp parser. */
module TimestampExamples {
  import opened Wrappers
  import opened PyText
  import opened Timestamp

  /** The timestamp of the documented request. */
  lemma DocumentedExample(s: string)
    requires s == "2024:01:15 10:30:00"
    ensures ParseTimestamp(s) == Success(DateTime(2024, 1, 15, 10, 30, 0))
  {
    DocumentedFormat(s);
    RoundTrip(DateTime(2024, 1, 15, 10, 30, 0));
  }

  lemma DocumentedFormat(s: string)
    requires s == "2024:01:15 10:30:00"
    ensures Format(DateTime(2024, 1, 15, 10, 30, 0)) == s
  {
    FormatChars(DateTime(2024, 1, 15, 10, 30, 0), s);
  }

  /** 29 February 2024 exists. */
  lemma LeapDayAccepted(s: string)
    requires s == "2024:02:29 00:00:00"
    ensures ParseTimestamp(s) == Success(DateTime(2024, 2, 29, 0, 0, 0))
  {
    var dt := DateTime(2024, 2, 29, 0, 0, 0);
    FormatChars(dt, s);
    RoundTrip(dt);
  }

  /** 29 February 2023 does not. */
  lemma CommonYearLeapDayRejected(s: string)
    requires s == "2023:02:29 00:00:00"
    ensures ParseTimestamp(s) == Failure(OutOfRange)
  {
    var dt := DateTime(2023, 2, 29, 0, 0, 0);
    FormatChars(dt, s);
    ParseExact(dt);
  }

  /** The pattern lets 30 February through; the calendar does not. */
  lemma ThirtiethOfFebruaryRejected(s: string)
    requires s == "2024:02:30 10:30:00"
    ensures ParseTimestamp(s) == Failure(OutOfRange)
  {
    var dt := DateTime(2024, 2, 30, 10, 30, 0);
    FormatChars(dt, s);
    ParseExact(dt);
  }

  /** Year 0 has four digits but is before the first year `date` knows. */
  lemma YearZeroRejected(s: string)
    requires s == "0000:01:15 10:30:00"
    ensures ParseTimestamp(s) == Failure(OutOfRange)
  {
    var dt := DateTime(0, 1, 15, 10, 30, 0);
    FormatChars(dt, s);
    ParseExact(dt);
  }

  /** %S matches a leap second, which `datetime` then refuses. */
  lemma LeapSecondRejected(s: string)
    requires s == "2024:01:15 10:30:60"
    ensures ParseTimestamp(s) == Failure(OutOfRange)
  {
    var dt := DateTime(2024, 1, 15, 10, 30, 60);
    FormatChars(dt, s);
    ParseExact(dt);
  }

  /** A month of 13 is not even matched by the pattern. */
  lemma MonthThirteenRejected(s: string)
    requires s == "2024:13:15 10:30:00"
    ensures ParseTimestamp(s) == Failure(NoMatch)
  {
    var dt := DateTime(2024, 13, 15, 10, 30, 0);
    FormatChars(dt, s);
    ParseNoMatch(dt, []);
    assert Format(dt) + [] == s;
  }

  /** Neither is an hour of 24. */
  lemma HourTwentyFourRejected(s: string)
    requires s == "2024:01:15 24:30:00"
    ensures ParseTimestamp(s) == Failure(NoMatch)
  {
    var dt := DateTime(2024, 1, 15, 24, 30, 0);
    FormatChars(dt, s);
    ParseNoMatch(dt, []);
    assert Format(dt) + [] == s;
  }

  /** A second of 75 matches as 7 and leaves the 5 over. */
  lemma SecondSeventyFiveRejected(s: string)
    requires s == "2024:01:15 10:30:75"
    ensures ParseTimestamp(s) == Failure(UnconvertedData("5"))
  {
    var dt := DateTime(2024, 1, 15, 10, 30, 75);
    FormatChars(dt, s);
    ParseLongSecond(dt, []);
    assert Format(dt) + [] == Format(dt);
    assert [DigitChar(dt.second % 10)] + [] == "5";
  }

  /** A trailing zone letter is left over. */
  lemma TrailingZoneRejected(s: string)
    requires s == "2024:01:15 10:30:00Z"
    ensures ParseTimestamp(s) == Failure(UnconvertedData("Z"))
  {
    var dt := DateTime(2024, 1, 15, 10, 30, 0);
    DocumentedFormat(s[..19]);
    assert s == s[..19] + "Z";
    ParseTrailing(dt, "Z");
  }

  /** A dash for a colon is no match. */
  lemma DashSeparatorRejected(s: string)
    requires s == "2024-01-15 10:30:00"
    ensures ParseTimestamp(s) == Failure(NoMatch)
  {
    assert s[4] != ':';
    assert MatchDate(s) == None;
  }

  /** A date without its time is no match. */
  lemma MissingTimeRejected(s: string)
    requires s == "2024:01:15"
    ensures ParseTimestamp(s) == Failure(NoMatch)
  {
    assert s[..4] == "2024";
    assert FieldLength(Month, s, 5) == Some(2);
    assert FieldLength(Day, s, 8) == None;
    assert MatchDate(s) == None;
  }

  /** An ISO `T` where the space belongs is no match. */
  lemma IsoSeparatorRejected(s: string)
    requires s == "2024:01:15T10:30:00"
    ensures ParseTimestamp(s) == Failure(NoMatch)
  {
    assert s[..4] == "2024";
    assert FieldLength(Month, s, 5) == Some(2);
    assert FieldLength(Day, s, 8) == None;
    assert MatchDate(s) == None;
  }

  lemma UnpaddedDate(s: string)
    requires s == "2024:1:5 1:2:3"
    ensures MatchDate(s) == Some(Part("2024", "1", "5", 8))
  {
    assert IsYearToken(s[..4]);
    assert FieldLength(Month, s, 5) == Some(1);
    assert FieldLength(Day, s, 7) == Some(1);
    assert s[..4] == "2024" && s[5..6] == "1" && s[7..8] == "5";
  }

  lemma UnpaddedTime(s: string)
    requires s == "2024:1:5 1:2:3"
    ensures MatchTime(s, 9) == Some(Part("1", "2", "3", 14))
  {
    assert FieldLength(Hour, s, 9) == Some(1);
    assert FieldLength(Minute, s, 11) == Some(1);
    assert SecondLength(s, 13) == Some(1);
    assert s[9..10] == "1" && s[11..12] == "2" && s[13..14] == "3";
  }

  lemma UnpaddedMatch(s: string)
    requires s == "2024:1:5 1:2:3"
    ensures MatchFormat(s) == Some(Captures("2024", "1", "5", "1", "2", "3", 14))
  {
    UnpaddedDate(s);
    assert SpaceRun(s, 8) == 1;
    UnpaddedTime(s);
  }

  /** The fields need no zero padding. */
  lemma UnpaddedAccepted(s: string)
    requires s == "2024:1:5 1:2:3"
    ensures ParseTimestamp(s) == Success(DateTime(2024, 1, 5, 1, 2, 3))
  {
    UnpaddedMatch(s);
    YearValue("2024");
    DigitFieldValue("1");
    DigitFieldValue("5");
    DigitFieldValue("2");
    DigitFieldValue("3");
    ParseOfMatch(s, Captures("2024", "1", "5", "1", "2", "3", 14), DateTime(2024, 1, 5, 1, 2, 3));
  }

  /** A match that covers the whole input and converts to a valid date and time is the result. */
  lemma ParseOfMatch(s: string, c: Captures, dt: DateTime)
    requires MatchFormat(s) == Some(c) && c.end == |s|
    requires dt == DateTime(FieldValue(c.year), FieldValue(c.month), FieldValue(c.day),
                            FieldValue(c.hour), FieldValue(c.minute), FieldValue(c.second))
    requires IsValid(dt)
    ensures ParseTimestamp(s) == Success(dt)
  {
  }

  lemma YearValue(t: string)
    requires t == "2024"
    ensures FieldValue(t) == 2024
  {
    assert FourDigits(2024) == t;
  }

  lemma DigitFieldValue(t: string)
    requires |t| == 1 && IsDigit(t[0])
    ensures FieldValue(t) == DigitValue(t[0])
  {
    assert t[0] != ' ' && t[..0] == [];
    assert DecimalValue(t) == DecimalValue([]) * 10 + DigitValue(t[0]);
  }

  lemma PairFieldValue(t: string)
    requires |t| == 2 && IsDigit(t[0]) && IsDigit(t[1])
    ensures FieldValue(t) == DigitValue(t[0]) * 10 + DigitValue(t[1])
  {
    assert t[0] != ' ' && t[..1] == [t[0]] && [t[0]][..0] == [];
    assert DecimalValue(t[..1]) == DecimalValue([]) * 10 + DigitValue(t[0]);
  }

  lemma SpacePaddedDate(s: string)
    requires s == "2024:01: 5 10:30:00"
    ensures MatchDate(s) == Some(Part("2024", "01", " 5", 10))
  {
    assert IsYearToken(s[..4]);
    assert FieldLength(Month, s, 5) == Some(2);
    assert FieldLength(Day, s, 8) == Some(2);
    assert s[..4] == "2024" && s[5..7] == "01" && s[8..10] == " 5";
  }

  lemma SpacePaddedTime(s: string)
    requires s == "2024:01: 5 10:30:00"
    ensures MatchTime(s, 11) == Some(Part("10", "30", "00", 19))
  {
    assert FieldLength(Hour, s, 11) == Some(2);
    assert FieldLength(Minute, s, 14) == Some(2);
    assert SecondLength(s, 17) == Some(2);
    assert s[11..13] == "10" && s[14..16] == "30" && s[17..19] == "00";
  }

  lemma SpacePaddedDayMatch(s: string)
    requires s == "2024:01: 5 10:30:00"
    ensures MatchFormat(s) == Some(Captures("2024", "01", " 5", "10", "30", "00", 19))
  {
    SpacePaddedDate(s);
    assert SpaceRun(s, 10) == 1;
    SpacePaddedTime(s);
  }

  lemma SpacePaddedValues(c: Captures)
    requires c == Captures("2024", "01", " 5", "10", "30", "00", 19)
    ensures WellFormed(c)
    ensures FieldValue(c.year) == 2024 && FieldValue(c.month) == 1 && FieldValue(c.day) == 5
    ensures FieldValue(c.hour) == 10 && FieldValue(c.minute) == 30 && FieldValue(c.second) == 0
  {
    YearValue(c.year);
    PairFieldValue(c.month);
    PairFieldValue(c.hour);
    PairFieldValue(c.minute);
    PairFieldValue(c.second);
  }

  /** A day may also be a space and one digit, as the ` [1-9]` alternative of %d allows. */
  lemma SpacePaddedDayAccepted(s: string)
    requires s == "2024:01: 5 10:30:00"
    ensures ParseTimestamp(s) == Success(DateTime(2024, 1, 5, 10, 30, 0))
  {
    SpacePaddedDayMatch(s);
    SpacePaddedValues(Captures("2024", "01", " 5", "10", "30", "00", 19));
    ParseOfMatch(s, Captures("2024", "01", " 5", "10", "30", "00", 19), DateTime(2024, 1, 5, 10, 30, 0));
  }
}
