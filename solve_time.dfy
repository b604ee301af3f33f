/**
 * `get_solved_time_in_seconds`: the puzzle app's "MM:SS" completion time as
 * a number of seconds, by splitting on ":" and unpacking the pieces, through
 * `int()`, into exactly two names.
 */
module SolveTime {
  import opened Wrappers
  import opened PyText

  /** The ValueError the function raises, by cause. */
  datatype TimeError =
    | InvalidInteger(piece: string)   // int() refused this piece
    | NotEnoughValues                 // one piece where two were unpacked
    | TooManyValues                   // three or more pieces

  /**
   * `minutes, seconds = map(int, value.split(":"))`, then
   * `minutes * 60 + seconds`. The unpacking pulls pieces through int() one at
   * a time and asks for a third to check that there is none, so a bad first,
   * second or third piece is reported as an invalid integer before the
   * wrong count is.
   */
  function SolvedTimeInSeconds(value: string): (r: Result<int, TimeError>)
    ensures r.Success? <==>
      |Split(value, ':')| == 2 && ParseInt(Split(value, ':')[0]).Some? && ParseInt(Split(value, ':')[1]).Some?
    ensures r.Success? ==>
      r.value == ParseInt(Split(value, ':')[0]).value * 60 + ParseInt(Split(value, ':')[1]).value
  {
    var parts := Split(value, ':');
    var minutes := ParseInt(parts[0]);
    if minutes.None? then Failure(InvalidInteger(parts[0]))
    else if |parts| == 1 then Failure(NotEnoughValues)
    else
      var seconds := ParseInt(parts[1]);
      if seconds.None? then Failure(InvalidInteger(parts[1]))
      else if |parts| == 2 then Success(minutes.value * 60 + seconds.value)
      else if ParseInt(parts[2]).None? then Failure(InvalidInteger(parts[2]))
      else Failure(TooManyValues)
  }

  /** "m:s" with both pieces read by int() gives m * 60 + s. */
  lemma {:induction false} TwoPieces(a: string, b: string, m: int, s: int)
    requires ':' !in a && ':' !in b
    requires ParseInt(a) == Some(m) && ParseInt(b) == Some(s)
    ensures SolvedTimeInSeconds(a + ":" + b) == Success(m * 60 + s)
  {
    var v := a + ":" + b;
    SplitInTwo(a, b);
    var parts := Split(v, ':');
    assert |parts| == 2 && ParseInt(parts[0]) == Some(m) && ParseInt(parts[1]) == Some(s);
  }

  /** `a:b` with colon-free pieces splits into exactly those two. */
  lemma SplitInTwo(a: string, b: string)
    requires ':' !in a && ':' !in b
    ensures Split(a + ":" + b, ':') == [a, b]
  {
    SplitFree(b, ':');
    SplitAfterFree(a, b, ':');
    assert a + ":" + b == a + [':'] + b;
  }

  /** A first piece that int() refuses is reported, whatever follows it. */
  lemma {:induction false} InvalidFirstPiece(a: string, b: string)
    requires ':' !in a && ParseInt(a).None?
    ensures SolvedTimeInSeconds(a + ":" + b) == Failure(InvalidInteger(a))
  {
    SplitAfterFree(a, b, ':');
  }

  /** A second piece that int() refuses is reported when it is the last piece. */
  lemma {:induction false} InvalidSecondPiece(a: string, b: string)
    requires ':' !in a && ':' !in b && ParseInt(a).Some? && ParseInt(b).None?
    ensures SolvedTimeInSeconds(a + ":" + b) == Failure(InvalidInteger(b))
  {
    SplitInTwo(a, b);
  }

  /** A second piece that int() refuses is reported before a third piece is looked at. */
  lemma {:induction false} InvalidSecondOfMore(a: string, b: string, c: string)
    requires ':' !in a && ':' !in b && ParseInt(a).Some? && ParseInt(b).None?
    ensures SolvedTimeInSeconds(a + ":" + b + ":" + c) == Failure(InvalidInteger(b))
  {
    SplitBeforeRest(a, b, c);
  }

  /** With two good pieces, a third piece that int() refuses is reported before the count. */
  lemma {:induction false} InvalidThirdPiece(a: string, b: string, c: string)
    requires ':' !in a && ':' !in b && ParseInt(a).Some? && ParseInt(b).Some?
    requires ParseInt(Split(c, ':')[0]).None?
    ensures SolvedTimeInSeconds(a + ":" + b + ":" + c) == Failure(InvalidInteger(Split(c, ':')[0]))
  {
    SplitBeforeRest(a, b, c);
  }

  /** Three or more pieces whose first three int() reads fail as "too many values". */
  lemma {:induction false} ThreeGoodPieces(a: string, b: string, c: string)
    requires ':' !in a && ':' !in b && ParseInt(a).Some? && ParseInt(b).Some?
    requires ParseInt(Split(c, ':')[0]).Some?
    ensures SolvedTimeInSeconds(a + ":" + b + ":" + c) == Failure(TooManyValues)
  {
    SplitBeforeRest(a, b, c);
  }

  /** `a:b:c` with colon-free `a` and `b` splits into `a`, `b` and the pieces of `c`. */
  lemma SplitBeforeRest(a: string, b: string, c: string)
    requires ':' !in a && ':' !in b
    ensures Split(a + ":" + b + ":" + c, ':') == [a, b] + Split(c, ':')
  {
    var v := a + ":" + b + ":" + c;
    SplitAfterFree(b, c, ':');
    assert v == a + [':'] + (b + [':'] + c);
    SplitAfterFree(a, b + [':'] + c, ':');
    assert Split(v, ':') == [a] + ([b] + Split(c, ':'));
  }

  /** Anything but exactly one colon is rejected. */
  lemma ColonCountRejected(value: string)
    requires Count(value, ':') != 1
    ensures SolvedTimeInSeconds(value).Failure?
  {
  }

  /** Without a colon the error is an invalid integer or a missing second value. */
  lemma NoColon(value: string)
    requires ':' !in value
    ensures SolvedTimeInSeconds(value) == if ParseInt(value).None? then Failure(InvalidInteger(value)) else Failure(NotEnoughValues)
  {
    SplitFree(value, ':');
  }

  /** Minutes and seconds written as plain digits never give a negative total. */
  lemma DigitsNonNegative(value: string)
    requires forall i :: 0 <= i < |value| ==> IsDigit(value[i]) || value[i] == ':'
    ensures SolvedTimeInSeconds(value).Success? ==> SolvedTimeInSeconds(value).value >= 0
  {
    var parts := Split(value, ':');
    if |parts| == 2 {
      assert Join(parts[1..], ':') == parts[1];
      assert value == parts[0] + [':'] + parts[1];
      assert AllDigits(parts[0]) by {
        forall i | 0 <= i < |parts[0]| ensures IsDigit(parts[0][i]) {
          assert parts[0][i] == value[i];
        }
      }
      assert AllDigits(parts[1]) by {
        forall i | 0 <= i < |parts[1]| ensures IsDigit(parts[1][i]) {
          assert parts[1][i] == value[|parts[0]| + 1 + i];
        }
      }
    }
  }

  /** The "MM:SS" text for a number of seconds: whole minutes, a colon, the remaining seconds. */
  function FormatTime(n: nat): string {
    NatToDecimal(n / 60) + ":" + NatToDecimal(n % 60)
  }

  /**
   * Round trip: formatting a number of seconds and parsing it back gives the
   * number, as long as the minutes fit `int()`'s digit limit.
   */
  lemma RoundTrip(n: nat)
    requires |NatToDecimal(n / 60)| <= MaxStrDigits
    ensures SolvedTimeInSeconds(FormatTime(n)) == Success(n)
  {
    var m, s := n / 60, n % 60;
    SixtyParts(n, m, s);
    SmallDecimal(s);
    WrittenPieces(m, s);
  }

  /** The seconds of a whole minute take at most two digits. */
  lemma SmallDecimal(s: nat)
    requires s < 60
    ensures |NatToDecimal(s)| <= 2
  {
    if s >= 10 {
      assert NatToDecimal(s) == NatToDecimal(s / 10) + [DigitChar(s % 10)];
    }
  }

  lemma SixtyParts(n: nat, m: nat, s: nat)
    requires m == n / 60 && s == n % 60
    ensures m * 60 + s == n
    ensures FormatTime(n) == NatToDecimal(m) + ":" + NatToDecimal(s)
  {
  }

  /**
   * Apart from `int()`'s digit limit there is no bound on either piece: any
   * minutes and seconds, more than 59 included, are read back.
   */
  lemma WrittenPieces(m: nat, s: nat)
    requires |NatToDecimal(m)| <= MaxStrDigits && |NatToDecimal(s)| <= MaxStrDigits
    ensures SolvedTimeInSeconds(NatToDecimal(m) + ":" + NatToDecimal(s)) == Success(m * 60 + s)
  {
    DigitsHaveNoColon(NatToDecimal(m));
    DigitsHaveNoColon(NatToDecimal(s));
    TwoPieces(NatToDecimal(m), NatToDecimal(s), m, s);
  }

  lemma DigitsHaveNoColon(s: string)
    requires AllDigits(s)
    ensures ':' !in s
  {
  }

  /** Decimal text written out by `NatToDecimal`, as a precondition of the examples below. */
  lemma DecimalPieces(value: string, m: nat, s: nat)
    requires value == NatToDecimal(m) + ":" + NatToDecimal(s)
    requires |NatToDecimal(m)| <= MaxStrDigits && |NatToDecimal(s)| <= MaxStrDigits
    ensures SolvedTimeInSeconds(value) == Success(m * 60 + s)
  {
    WrittenPieces(m, s);
  }

  /** Minutes written with more digits than `int()` converts are refused, whatever follows. */
  lemma OverlongMinutes(a: string, b: string)
    requires AllDigits(a) && |a| > MaxStrDigits
    ensures SolvedTimeInSeconds(a + ":" + b) == Failure(InvalidInteger(a))
  {
    DigitsHaveNoColon(a);
    ParseIntDigitLimit(a);
    InvalidFirstPiece(a, b);
  }

  /** The documented example. */
  lemma DocumentedExample(value: string)
    requires value == "12:37"
    ensures SolvedTimeInSeconds(value) == Success(757)
  {
    TwelveAndThirtySeven();
    DecimalPieces(value, 12, 37);
  }

  lemma TwelveAndThirtySeven()
    ensures NatToDecimal(12) + ":" + NatToDecimal(37) == "12:37"
  {
    assert NatToDecimal(12) == "12" by {
      assert NatToDecimal(1) == "1";
    }
    assert NatToDecimal(37) == "37" by {
      assert NatToDecimal(3) == "3";
    }
  }

  /** "1:75" has more than 59 seconds and is still accepted. */
  lemma SecondsOverflowExample(value: string)
    requires value == "1:75"
    ensures SolvedTimeInSeconds(value) == Success(135)
  {
    assert NatToDecimal(1) == "1";
    assert NatToDecimal(75) == "75" by {
      assert NatToDecimal(7) == "7";
    }
    DecimalPieces(value, 1, 75);
  }

  /** A lone number is missing its seconds. */
  lemma OnePieceExample(value: string)
    requires value == "1234"
    ensures SolvedTimeInSeconds(value) == Failure(NotEnoughValues)
  {
    assert AllDigits(value) && |value| == 4;
    assert ParseInt(value).Some?;
    NoColon(value);
  }

  /** Three pieces are one too many. */
  lemma ThreePiecesExample(value: string)
    requires value == "1:02:03"
    ensures SolvedTimeInSeconds(value) == Failure(TooManyValues)
  {
    var a, b, c := value[..1], value[2..4], value[5..];
    assert a == "1" && b == "02" && c == "03";
    assert value == a + [':'] + (b + [':'] + c);
    SplitFree(c, ':');
    SplitAfterFree(b, c, ':');
    SplitAfterFree(a, b + [':'] + c, ':');
    ThreeDigitPieces(value, a, b, c);
  }

  lemma ThreeDigitPieces(value: string, a: string, b: string, c: string)
    requires Split(value, ':') == [a] + ([b] + [c])
    requires a == "1" && b == "02" && c == "03"
    ensures SolvedTimeInSeconds(value) == Failure(TooManyValues)
  {
    assert AllDigits(a) && AllDigits(b) && AllDigits(c);
    var parts := Split(value, ':');
    assert |parts| == 3 && parts[0] == a && parts[1] == b && parts[2] == c;
  }

  /** A piece that is not a number is reported as such. */
  lemma NotANumberExample(value: string, piece: string)
    requires piece == "ab" && value == piece + ":12"
    ensures SolvedTimeInSeconds(value) == Failure(InvalidInteger(piece))
  {
    LettersAreNotAnInteger(piece);
    assert value == piece + ":" + "12";
    InvalidFirstPiece(piece, "12");
  }

  lemma LettersAreNotAnInteger(piece: string)
    requires piece == "ab"
    ensures ':' !in piece && ParseInt(piece) == None
  {
    assert IntStripLeft(piece) == piece;
    assert IntStripRight(piece) == piece;
    assert !IsDigitRun(piece);
  }
}
