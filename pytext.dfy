/**
 * The few Python string built-ins the validators rely on: `str.lower` on
 * ASCII letters, `str.strip`, `str.split(sep)`, and `int(str)` on ASCII text.
 */
module PyText {
  import opened Wrappers

  predicate IsDigit(c: char) { '0' <= c <= '9' }

  /**
   * Python's whitespace, as `str.isspace()`, `str.strip()` and the `\s` of a
   * `str` pattern see it: \t \n \v \f \r, \x1c-\x1f and the space, then
   * U+0085, U+00A0, U+1680, U+2000-U+200A, U+2028, U+2029, U+202F, U+205F
   * and U+3000.
   */
  predicate IsSpace(c: char) {
    var n := c as int;
    || 9 <= n <= 13 || 28 <= n <= 32
    || n == 0x85 || n == 0xA0 || n == 0x1680 || 0x2000 <= n <= 0x200A
    || n == 0x2028 || n == 0x2029 || n == 0x202F || n == 0x205F || n == 0x3000
  }

  predicate AllDigits(s: string) { forall i :: 0 <= i < |s| ==> IsDigit(s[i]) }

  function DigitValue(c: char): (d: nat)
    requires IsDigit(c)
    ensures d < 10
  {
    c as int - '0' as int
  }

  function DigitChar(d: nat): (c: char)
    requires d < 10
    ensures IsDigit(c) && DigitValue(c) == d
  {
    (d + '0' as int) as char
  }

  // ---------------------------------------------------------------- lower

  function LowerChar(c: char): char {
    if 'A' <= c <= 'Z' then (c as int + 32) as char else c
  }

  predicate IsLowerCase(s: string) { forall i :: 0 <= i < |s| ==> !('A' <= s[i] <= 'Z') }

  /** `str.lower()` on ASCII letters; every other character is kept. */
  function Lower(s: string): (r: string)
    ensures |r| == |s|
    ensures IsLowerCase(r)
  {
    if s == [] then [] else [LowerChar(s[0])] + Lower(s[1..])
  }

  /** Lower-casing changes nothing in a string that has no upper-case letter. */
  lemma {:induction false} LowerOfLowerCase(s: string)
    requires IsLowerCase(s)
    ensures Lower(s) == s
  {
    if s != [] {
      assert IsLowerCase(s[1..]) by {
        forall i | 0 <= i < |s[1..]| ensures !('A' <= s[1..][i] <= 'Z') {
          assert s[1..][i] == s[i + 1];
        }
      }
      LowerOfLowerCase(s[1..]);
    }
  }

  /** Lower-casing is idempotent. */
  lemma LowerIdempotent(s: string)
    ensures Lower(Lower(s)) == Lower(s)
  {
    LowerOfLowerCase(Lower(s));
  }

  /** Lower-casing works character by character. */
  lemma {:induction false} LowerAt(s: string, i: nat)
    requires i < |s|
    ensures Lower(s)[i] == LowerChar(s[i])
  {
    if i > 0 { LowerAt(s[1..], i - 1); }
  }

  // ---------------------------------------------------------------- strip

  function StripLeft(s: string): (r: string)
    ensures |r| <= |s|
    ensures r == [] || !IsSpace(r[0])
  {
    if s != [] && IsSpace(s[0]) then StripLeft(s[1..]) else s
  }

  function StripRight(s: string): (r: string)
    ensures |r| <= |s| && r == s[..|r|]
    ensures r == [] || !IsSpace(r[|r| - 1])
  {
    if s != [] && IsSpace(s[|s| - 1]) then StripRight(s[..|s| - 1]) else s
  }

  /** `StripLeft` keeps a suffix of its input. */
  lemma {:induction false} StripLeftSuffix(s: string)
    ensures StripLeft(s) == s[|s| - |StripLeft(s)|..]
  {
    if s != [] && IsSpace(s[0]) {
      StripLeftSuffix(s[1..]);
      assert s[1..][|s| - 1 - |StripLeft(s)|..] == s[|s| - |StripLeft(s)|..];
    }
  }

  /** What `StripLeft` removes is whitespace only. */
  lemma {:induction false} StripLeftDropsSpace(s: string, k: nat)
    requires k < |s| - |StripLeft(s)|
    ensures IsSpace(s[k])
  {
    if s != [] && IsSpace(s[0]) && 0 < k {
      StripLeftDropsSpace(s[1..], k - 1);
    }
  }

  /** What `StripRight` removes is whitespace only. */
  lemma {:induction false} StripRightDropsSpace(s: string, k: nat)
    requires |StripRight(s)| <= k < |s|
    ensures IsSpace(s[k])
  {
    if s != [] && IsSpace(s[|s| - 1]) && k < |s| - 1 {
      StripRightDropsSpace(s[..|s| - 1], k);
    }
  }

  /** `str.strip()`: the string without its leading and trailing whitespace. */
  function Strip(s: string): (r: string)
    ensures |r| <= |s|
    ensures r == [] || (!IsSpace(r[0]) && !IsSpace(r[|r| - 1]))
  {
    StripRight(StripLeft(s))
  }

  /** A string that neither starts nor ends with whitespace is its own strip. */
  lemma StripUnspaced(s: string)
    requires s == [] || (!IsSpace(s[0]) && !IsSpace(s[|s| - 1]))
    ensures Strip(s) == s
  {
  }

  // ---------------------------------------------------------------- split

  /** Number of occurrences of `c` in `s`. */
  function Count(s: string, c: char): nat {
    if s == [] then 0 else (if s[0] == c then 1 else 0) + Count(s[1..], c)
  }

  lemma {:induction false} CountConcat(a: string, b: string, c: char)
    ensures Count(a + b, c) == Count(a, c) + Count(b, c)
  {
    if a == [] {
      assert a + b == b;
    } else {
      assert (a + b)[1..] == a[1..] + b;
      CountConcat(a[1..], b, c);
    }
  }

  lemma {:induction false} CountAbsent(s: string, c: char)
    requires c !in s
    ensures Count(s, c) == 0
  {
    if s != [] {
      assert c !in s[1..] by {
        forall x | x in s[1..] ensures x != c { assert x in s; }
      }
      CountAbsent(s[1..], c);
    }
  }

  /** The pieces of `s` between the separators, joined back with `sep`. */
  function Join(parts: seq<string>, sep: char): string
    requires |parts| >= 1
  {
    if |parts| == 1 then parts[0] else parts[0] + [sep] + Join(parts[1..], sep)
  }

  /**
   * `s.split(sep)`: cut at every occurrence of `sep`, keeping empty pieces.
   * There is one piece more than there are separators, no piece holds the
   * separator, and joining the pieces gives `s` back.
   */
  function Split(s: string, sep: char): (parts: seq<string>)
    ensures |parts| == Count(s, sep) + 1
    ensures forall i :: 0 <= i < |parts| ==> sep !in parts[i]
    ensures Join(parts, sep) == s
  {
    if s == [] then [""]
    else
      var rest := Split(s[1..], sep);
      if s[0] == sep then
        assert s == [sep] + s[1..];
        [""] + rest
      else
        var parts := [[s[0]] + rest[0]] + rest[1..];
        assert parts[1..] == rest[1..];
        assert Join(parts, sep) == s by {
          if |rest| > 1 {
            assert Join(rest, sep) == rest[0] + [sep] + Join(rest[1..], sep);
          }
        }
        parts
  }

  /** Splitting the join of separator-free pieces gives the pieces back. */
  lemma {:induction false} SplitJoin(parts: seq<string>, sep: char)
    requires |parts| >= 1
    requires forall i :: 0 <= i < |parts| ==> sep !in parts[i]
    ensures Split(Join(parts, sep), sep) == parts
  {
    SplitFree(parts[0], sep);
    if |parts| > 1 {
      SplitJoin(parts[1..], sep);
      SplitAfterFree(parts[0], Join(parts[1..], sep), sep);
    }
  }

  lemma {:induction false} SplitFree(s: string, sep: char)
    requires sep !in s
    ensures Split(s, sep) == [s]
  {
    if s != [] {
      assert sep !in s[1..] by {
        forall x | x in s[1..] ensures x != sep { assert x in s; }
      }
      SplitFree(s[1..], sep);
    }
  }

  /** A separator-free prefix becomes the first piece. */
  lemma {:induction false} SplitAfterFree(a: string, b: string, sep: char)
    requires sep !in a
    ensures Split(a + [sep] + b, sep) == [a] + Split(b, sep)
  {
    if a == [] {
      assert a + [sep] + b == [sep] + b;
      assert ([sep] + b)[1..] == b;
    } else {
      assert sep !in a[1..] by {
        forall x | x in a[1..] ensures x != sep { assert x in a; }
      }
      assert (a + [sep] + b)[1..] == a[1..] + [sep] + b;
      SplitAfterFree(a[1..], b, sep);
      assert [a[0]] + a[1..] == a;
    }
  }

  // ---------------------------------------------------------------- int()

  /**
   * The whitespace `int()` skips around the number in an ASCII string: C's
   * `isspace`, that is \t \n \v \f \r and the space. Unlike `str.strip`, it
   * leaves \x1c-\x1f alone.
   */
  predicate IsIntSpace(c: char) { 9 <= c as int <= 13 || c == ' ' }

  function IntStripLeft(s: string): (r: string)
    ensures |r| <= |s|
    ensures r == [] || !IsIntSpace(r[0])
  {
    if s != [] && IsIntSpace(s[0]) then IntStripLeft(s[1..]) else s
  }

  function IntStripRight(s: string): (r: string)
    ensures |r| <= |s| && r == s[..|r|]
    ensures r == [] || !IsIntSpace(r[|r| - 1])
  {
    if s != [] && IsIntSpace(s[|s| - 1]) then IntStripRight(s[..|s| - 1]) else s
  }

  /** The text `int()` reads the number from: `s` without the whitespace it skips at either end. */
  function IntStrip(s: string): (r: string)
    ensures |r| <= |s|
    ensures r == [] || (!IsIntSpace(r[0]) && !IsIntSpace(r[|r| - 1]))
  {
    IntStripRight(IntStripLeft(s))
  }

  /** A string that neither starts nor ends with skipped whitespace is read as it is. */
  lemma IntStripUnspaced(s: string)
    requires s == [] || (!IsIntSpace(s[0]) && !IsIntSpace(s[|s| - 1]))
    ensures IntStrip(s) == s
  {
  }

  /** `IntStripLeft` keeps a suffix of its input and drops skipped whitespace only. */
  lemma {:induction false} IntStripLeftDrops(s: string)
    ensures IntStripLeft(s) == s[|s| - |IntStripLeft(s)|..]
    ensures forall k :: 0 <= k < |s| - |IntStripLeft(s)| ==> IsIntSpace(s[k])
  {
    if s != [] && IsIntSpace(s[0]) {
      IntStripLeftDrops(s[1..]);
      assert s[1..][|s| - 1 - |IntStripLeft(s)|..] == s[|s| - |IntStripLeft(s)|..];
      forall k | 1 <= k < |s| - |IntStripLeft(s)| ensures IsIntSpace(s[k]) {
        assert s[1..][k - 1] == s[k];
      }
    }
  }

  /** `IntStripRight` drops skipped whitespace only. */
  lemma {:induction false} IntStripRightDrops(s: string)
    ensures forall k :: |IntStripRight(s)| <= k < |s| ==> IsIntSpace(s[k])
  {
    if s != [] && IsIntSpace(s[|s| - 1]) {
      IntStripRightDrops(s[..|s| - 1]);
    }
  }

  /** Value of a digit string read left to right; anything but a digit (the `_` of `int()`) carries no value. */
  function DecimalValue(s: string): nat {
    if s == [] then 0
    else if IsDigit(s[|s| - 1]) then DecimalValue(s[..|s| - 1]) * 10 + DigitValue(s[|s| - 1])
    else DecimalValue(s[..|s| - 1])
  }

  /**
   * The digit part accepted by `int()` in base 10: digits, where a single
   * `_` may stand between two digits.
   */
  predicate IsDigitRun(s: string)
    decreases |s|
  {
    && |s| > 0
    && IsDigit(s[0])
    && (|s| == 1 || IsDigitRun(s[1..]) || (s[1] == '_' && IsDigitRun(s[2..])))
  }

  /** Every non-empty string of digits is a digit run. */
  lemma {:induction false} DigitsAreRun(s: string)
    requires |s| > 0 && AllDigits(s)
    ensures IsDigitRun(s)
  {
    if |s| > 1 {
      DigitsAreRun(s[1..]);
    }
  }

  /**
   * The default limit on the number of digits `int()` converts from decimal
   * text (`sys.int_info.default_max_str_digits`, from Python 3.11 on).
   */
  const MaxStrDigits := 4300

  /** Number of digits in `s`; the underscores of a digit run do not count. */
  function DigitCount(s: string): (n: nat)
    ensures n <= |s|
    ensures AllDigits(s) ==> n == |s|
  {
    if s == [] then 0 else (if IsDigit(s[0]) then 1 else 0) + DigitCount(s[1..])
  }

  /**
   * `int(s)`: surrounding whitespace is skipped, one optional sign, then a
   * digit run of at most `MaxStrDigits` digits. Anything else raises
   * ValueError, which is `None` here.
   */
  function ParseInt(s: string): (r: Option<int>)
    ensures r.Some? ==> |s| > 0
    ensures |s| > 0 && AllDigits(s) && |s| <= MaxStrDigits ==> r == Some(DecimalValue(s))
  {
    assert |s| > 0 && AllDigits(s) ==> IntStrip(s) == s && IsDigitRun(s) by {
      if |s| > 0 && AllDigits(s) {
        IntStripUnspaced(s);
        DigitsAreRun(s);
      }
    }
    var t := IntStrip(s);
    if |t| > 0 && (t[0] == '+' || t[0] == '-') then
      if IsDigitRun(t[1..]) && DigitCount(t[1..]) <= MaxStrDigits then
        var m: int := DecimalValue(t[1..]);
        Some(if t[0] == '-' then -m else m)
      else None
    else if IsDigitRun(t) && DigitCount(t) <= MaxStrDigits then Some(DecimalValue(t))
    else None
  }

  /** More than `MaxStrDigits` digits make `int()` raise ValueError, whatever their value. */
  lemma ParseIntDigitLimit(s: string)
    requires AllDigits(s) && |s| > MaxStrDigits
    ensures ParseInt(s) == None
  {
    IntStripUnspaced(s);
  }

  /** A digit run holds digits and underscores only, and starts with a digit. */
  lemma {:induction false} DigitRunChars(s: string)
    requires IsDigitRun(s)
    ensures IsDigit(s[0])
    ensures forall k :: 0 <= k < |s| ==> IsDigit(s[k]) || s[k] == '_'
    decreases |s|
  {
    if |s| > 1 {
      if IsDigitRun(s[1..]) {
        DigitRunChars(s[1..]);
        forall k | 1 <= k < |s| ensures IsDigit(s[k]) || s[k] == '_' {
          assert s[1..][k - 1] == s[k];
        }
      } else {
        DigitRunChars(s[2..]);
        forall k | 2 <= k < |s| ensures IsDigit(s[k]) || s[k] == '_' {
          assert s[2..][k - 2] == s[k];
        }
      }
    }
  }

  /** A character `int()` can read in base 10: a digit, skipped whitespace, a sign or an underscore. */
  predicate IsIntChar(c: char) { IsDigit(c) || IsIntSpace(c) || c == '+' || c == '-' || c == '_' }

  /**
   * What `int()` refuses: a text holding any other character, or no digit
   * at all, raises ValueError.
   */
  lemma ParseIntChars(s: string)
    requires ParseInt(s).Some?
    ensures forall i :: 0 <= i < |s| ==> IsIntChar(s[i])
    ensures exists i :: 0 <= i < |s| && IsDigit(s[i])
  {
    var t := IntStrip(s);
    ParseIntShape(s);
    SignedRunChars(t);
    IntStripIsSlice(s, |s| - |IntStripLeft(s)|);
    SliceChars(s, |s| - |IntStripLeft(s)|, t);
  }

  /** What `int()` accepts once the skipped whitespace is gone: an optional sign, then a digit run. */
  lemma ParseIntShape(s: string)
    requires ParseInt(s).Some?
    ensures IsSignedRun(IntStrip(s))
  {
  }

  predicate IsSignedRun(t: string) {
    IsDigitRun(t) || (|t| > 0 && (t[0] == '+' || t[0] == '-') && IsDigitRun(t[1..]))
  }

  /** A slice of readable characters with skipped whitespace around it is readable throughout. */
  lemma SliceChars(s: string, a: nat, t: string)
    requires a + |t| <= |s| && t == s[a..a + |t|]
    requires forall k :: 0 <= k < |s| ==> a <= k < a + |t| || IsIntSpace(s[k])
    requires forall i :: 0 <= i < |t| ==> IsIntChar(t[i])
    requires exists i :: 0 <= i < |t| && IsDigit(t[i])
    ensures forall i :: 0 <= i < |s| ==> IsIntChar(s[i])
    ensures exists i :: 0 <= i < |s| && IsDigit(s[i])
  {
    forall i | 0 <= i < |s| ensures IsIntChar(s[i]) {
      if a <= i < a + |t| {
        assert s[i] == t[i - a];
      }
    }
    var j :| 0 <= j < |t| && IsDigit(t[j]);
    assert s[a + j] == t[j];
  }

  /** `IntStrip` keeps one slice of its input, from `a` on, and drops only skipped whitespace around it. */
  lemma IntStripIsSlice(s: string, a: nat)
    requires a == |s| - |IntStripLeft(s)|
    ensures a + |IntStrip(s)| <= |s|
    ensures IntStrip(s) == s[a..a + |IntStrip(s)|]
    ensures forall k :: 0 <= k < |s| ==> a <= k < a + |IntStrip(s)| || IsIntSpace(s[k])
  {
    var l := IntStripLeft(s);
    var t := IntStripRight(l);
    IntStripLeftDrops(s);
    IntStripRightDrops(l);
    assert l == s[a..];
    assert t == l[..|t|] == s[a..a + |t|];
    forall k | 0 <= k < |s| && !(a <= k < a + |t|) ensures IsIntSpace(s[k]) {
      if a + |t| <= k {
        assert s[k] == l[k - a];
      }
    }
  }

  /** The text `int()` accepts after stripping: an optional sign, then a digit run. */
  lemma SignedRunChars(t: string)
    requires IsSignedRun(t)
    ensures forall i :: 0 <= i < |t| ==> IsIntChar(t[i])
    ensures exists i :: 0 <= i < |t| && IsDigit(t[i])
  {
    if IsDigitRun(t) {
      DigitRunChars(t);
      assert IsDigit(t[0]);
    } else {
      var run := t[1..];
      DigitRunChars(run);
      forall i | 1 <= i < |t| ensures IsIntChar(t[i]) {
        assert t[i] == run[i - 1];
      }
      assert IsDigit(t[1]);
    }
  }

  /** \x1c, which `str.strip` removes, is not whitespace to `int()`. */
  lemma ParseIntRefusesFileSeparator(s: string)
    requires s == [28 as char] + "5"
    ensures Strip(s) == "5"
    ensures ParseInt(s) == None
  {
    assert s[1..] == "5" && StripLeft(s) == StripLeft("5") == "5";
    assert StripRight("5") == "5";
    assert !IsDigitRun(s);
  }

  /** Decimal text of a natural number, without leading zeros. */
  function NatToDecimal(n: nat): (r: string)
    ensures |r| > 0 && AllDigits(r)
    ensures DecimalValue(r) == n
    ensures n > 0 ==> r[0] != '0'
  {
    if n < 10 then [DigitChar(n)]
    else
      var r := NatToDecimal(n / 10) + [DigitChar(n % 10)];
      assert r[..|r| - 1] == NatToDecimal(n / 10);
      r
  }

  /** `int()` reads back the decimal text of every natural number within the digit limit. */
  lemma ParseIntNatToDecimal(n: nat)
    requires |NatToDecimal(n)| <= MaxStrDigits
    ensures ParseInt(NatToDecimal(n)) == Some(n)
  {
  }

  /** `int()` reads back a negative number written with a minus sign; the sign is not a digit. */
  lemma ParseIntNegative(n: nat)
    requires |NatToDecimal(n)| <= MaxStrDigits
    ensures ParseInt("-" + NatToDecimal(n)) == Some(-(n as int))
  {
    NegativeDigits("-" + NatToDecimal(n), NatToDecimal(n), n);
  }

  lemma NegativeDigits(s: string, d: string, v: nat)
    requires s == "-" + d && |d| > 0 && AllDigits(d) && |d| <= MaxStrDigits && DecimalValue(d) == v
    ensures ParseInt(s) == Some(-(v as int))
  {
    MinusStripped(s, d);
    DigitsAreRun(d);
    MinusRun(s);
  }

  lemma MinusStripped(s: string, d: string)
    requires s == "-" + d && |d| > 0 && AllDigits(d)
    ensures IntStrip(s) == s && s[1..] == d
  {
    assert s[0] == '-' && s[1..] == d && s[|s| - 1] == d[|d| - 1];
    IntStripUnspaced(s);
  }

  /** Stripped text made of a minus sign and a digit run within the limit reads as the run's negation. */
  lemma MinusRun(t: string)
    requires IntStrip(t) == t && |t| > 0 && t[0] == '-'
    requires IsDigitRun(t[1..]) && DigitCount(t[1..]) <= MaxStrDigits
    ensures ParseInt(t) == Some(-(DecimalValue(t[1..]) as int))
  {
  }
}
