/**
 * `SudokuDifficulty` (a string enum with three members) and the
 * `uncapitalize_string` before-validator that lower-cases a label before it
 * is looked up among the members' values.
 */
module Difficulty {
  import opened Wrappers
  import opened PyText

  datatype SudokuDifficulty = Easy | Medium | Hard {

    /** The member's value: the string the enum compares against and the one persisted. */
    function Value(): (v: string)
      ensures IsLowerCase(v)
      ensures 0 < |v| <= 20
    {
      match this
      case Easy => "easy"
      case Medium => "medium"
      case Hard => "hard"
    }
  }

  /** Enum lookup by value: only an exact member value is accepted. */
  function FromValue(s: string): (r: Option<SudokuDifficulty>)
    ensures r.Some? ==> r.value.Value() == s
  {
    if s == "easy" then Some(Easy)
    else if s == "medium" then Some(Medium)
    else if s == "hard" then Some(Hard)
    else None
  }

  /** `uncapitalize_string`: the label lower-cased. */
  function Uncapitalize(s: string): (r: string)
    ensures |r| == |s| && IsLowerCase(r)
  {
    Lower(s)
  }

  /** The field validator: lower-case, then look the result up among the member values. */
  function Normalise(s: string): (r: Option<SudokuDifficulty>)
    ensures r.Some? ==> r.value.Value() == Lower(s)
    ensures r.None? ==> forall d: SudokuDifficulty :: d.Value() != Lower(s)
  {
    FromValue(Uncapitalize(s))
  }

  /** Every member is found from its own value, and from no other string. */
  lemma FromValueInverse(d: SudokuDifficulty, s: string)
    ensures FromValue(d.Value()) == Some(d)
    ensures FromValue(s) == Some(d) <==> s == d.Value()
  {
  }

  /** The three values are distinct. */
  lemma ValueInjective(d: SudokuDifficulty, e: SudokuDifficulty)
    ensures d.Value() == e.Value() <==> d == e
  {
  }

  /**
   * `s` spells the lower-case word `w` in any mix of cases: position by
   * position it holds the letter or its upper-case form.
   */
  ghost predicate SpellsIgnoringCase(s: string, w: string) {
    |s| == |w| && forall i :: 0 <= i < |s| ==> s[i] == w[i] || (s[i] as int == w[i] as int - 32 && 'a' <= w[i] <= 'z')
  }

  /**
   * Case-insensitivity, both ways: a label normalises to `d` exactly when it
   * spells `d`'s value in some mix of cases.
   */
  lemma NormaliseIff(s: string, d: SudokuDifficulty)
    ensures Normalise(s) == Some(d) <==> SpellsIgnoringCase(s, d.Value())
  {
    var w := d.Value();
    if SpellsIgnoringCase(s, w) {
      assert Lower(s) == w by {
        forall i | 0 <= i < |s| ensures Lower(s)[i] == w[i] {
          LowerAt(s, i);
        }
      }
    }
    if Normalise(s) == Some(d) {
      assert Lower(s) == w;
      forall i | 0 <= i < |s|
        ensures s[i] == w[i] || (s[i] as int == w[i] as int - 32 && 'a' <= w[i] <= 'z')
      {
        LowerAt(s, i);
      }
    }
  }

  /** Two labels that differ only in case normalise alike. */
  lemma NormaliseIgnoresCase(s: string, t: string)
    requires |s| == |t|
    requires forall i :: 0 <= i < |s| ==> LowerChar(s[i]) == LowerChar(t[i])
    ensures Normalise(s) == Normalise(t)
  {
    assert Lower(s) == Lower(t) by {
      forall i | 0 <= i < |s| ensures Lower(s)[i] == Lower(t)[i] {
        LowerAt(s, i);
        LowerAt(t, i);
      }
    }
  }

  /** A member's value is a fixed point of the validator: it lower-cases to itself and maps back to the member. */
  lemma ValueIsFixedPoint(d: SudokuDifficulty)
    ensures Uncapitalize(d.Value()) == d.Value()
    ensures Normalise(d.Value()) == Some(d)
  {
    LowerOfLowerCase(d.Value());
  }

  /** Normalising what was normalised changes nothing. */
  lemma UncapitalizeIdempotent(s: string)
    ensures Uncapitalize(Uncapitalize(s)) == Uncapitalize(s)
    ensures Normalise(Uncapitalize(s)) == Normalise(s)
  {
    LowerIdempotent(s);
  }

  /** The label of the documented example, in three spellings. */
  lemma NormaliseHardExamples()
    ensures Normalise("Hard") == Some(Hard)
    ensures Normalise("HARD") == Some(Hard)
    ensures Normalise("hard") == Some(Hard)
  {
    NormaliseIff("Hard", Hard);
    NormaliseIff("HARD", Hard);
    NormaliseIff("hard", Hard);
  }

  lemma NormaliseOtherExamples()
    ensures Normalise("mEdIuM") == Some(Medium)
    ensures Normalise("Easy") == Some(Easy)
  {
    NormaliseIff("mEdIuM", Medium);
    NormaliseIff("Easy", Easy);
  }

  /** Labels that are not a member value in any case are rejected. */
  lemma NormaliseRejects()
    ensures Normalise("Expert") == None
    ensures Normalise("hard ") == None
    ensures Normalise("") == None
  {
    LowerAt("Expert", 0);
  }
}
