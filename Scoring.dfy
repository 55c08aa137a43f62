/**
  The ranking of a pair of dice in the Mexico game.

  The source names three cases (a "Mexico" {1,2}, a double, an ordinary
  roll), but all three compute the same two-digit number: the higher die is
  the tens digit and the lower die the ones digit. The special constant for
  a Mexico roll is declared and never used, so a Mexico ranks 21.
*/
module Scoring {

  /** Declared by the game as "greater than any other" rank; no score uses it. */
  const Mexico := 1000

  /** The smallest and largest face of a die. */
  const LowFace := 1
  const HighFace := 6

  predicate IsFace(d: int) {
    LowFace <= d <= HighFace
  }

  function Max(a: int, b: int): int {
    if a >= b then a else b
  }

  function Min(a: int, b: int): int {
    if a <= b then a else b
  }

  /** The rank of a roll, branch by branch as the game computes it. */
  function Score(fst: int, sec: int): (r: int)
    // Whatever the branch, the rank is "high die, then low die" read as a number.
    ensures r == 10 * Max(fst, sec) + Min(fst, sec)
  {
    if (fst == 2 && sec == 1) || (fst == 1 && sec == 2) then
      Max(fst, sec) * 10 + Min(fst, sec)
    else if fst == sec then
      fst * 10 + sec
    else
      Max(fst, sec) * 10 + Min(fst, sec)
  }

  /** A double d ranks 11 * d, so doubles get no bonus over ordinary rolls. */
  lemma DoubleScore(d: int)
    ensures Score(d, d) == 11 * d
  {
  }

  /** The order of the two dice does not matter. */
  lemma ScoreSymmetric(fst: int, sec: int)
    ensures Score(fst, sec) == Score(sec, fst)
  {
  }

  /** A Mexico ranks 21, never the special constant, and an ordinary 3-1 beats it. */
  lemma MexicoIsOrdinary()
    ensures Score(1, 2) == 21 && Score(2, 1) == 21
    ensures Score(1, 2) != Mexico
    ensures Score(1, 2) < Score(3, 1)
  {
  }

  /** The ranks of real dice lie between 11 (a double one) and 66 (a double six). */
  lemma ScoreRange(fst: int, sec: int)
    requires IsFace(fst) && IsFace(sec)
    ensures 11 <= Score(fst, sec) <= 66
    ensures Score(fst, sec) < Mexico
  {
  }

  /**
    Between real dice the rank is lexicographic on (high die, low die): one
    roll beats another exactly when its high die is higher, or the high dice
    are equal and its low die is higher.
  */
  lemma ScoreOrder(a1: int, a2: int, b1: int, b2: int)
    requires IsFace(a1) && IsFace(a2) && IsFace(b1) && IsFace(b2)
    ensures Score(a1, a2) < Score(b1, b2) <==>
      Max(a1, a2) < Max(b1, b2) || (Max(a1, a2) == Max(b1, b2) && Min(a1, a2) < Min(b1, b2))
  {
  }

  /** Two rolls of real dice tie exactly when they show the same two faces. */
  lemma ScoreTie(a1: int, a2: int, b1: int, b2: int)
    requires IsFace(a1) && IsFace(a2) && IsFace(b1) && IsFace(b2)
    ensures Score(a1, a2) == Score(b1, b2) <==> multiset{a1, a2} == multiset{b1, b2}
  {
    if Score(a1, a2) == Score(b1, b2) {
      ScoreOrder(a1, a2, b1, b2);
      ScoreOrder(b1, b2, a1, a2);
      assert Max(a1, a2) == Max(b1, b2) && Min(a1, a2) == Min(b1, b2);
      if a1 <= a2 {
        if b1 <= b2 {
          assert a1 == b1 && a2 == b2;
        } else {
          assert a1 == b2 && a2 == b1;
        }
      } else {
        if b1 <= b2 {
          assert a1 == b2 && a2 == b1;
        } else {
          assert a1 == b1 && a2 == b2;
        }
      }
    }
  }

  /** The two cases fixed by the game's own checks: 2-6 ranks 62 and 6-5 ranks 65. */
  lemma ScoreExamples()
    ensures Score(2, 6) == 62
    ensures Score(6, 5) == 65
  {
  }
}
