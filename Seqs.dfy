/**
  Reference definitions, on plain sequences, of what the game's helpers
  over the table of players compute: the first position of a reference,
  the circular successor, removal of one entry, the earliest lowest score
  and the sum of the money. Each is stated once and proved about here;
  the helper methods are specified by them.
*/
module Seqs {

  /** Positions i and j hold different entries. */
  ghost predicate Apart<T>(s: seq<T>, i: int, j: int)
    requires 0 <= i < |s| && 0 <= j < |s|
  {
    s[i] != s[j]
  }

  /**
    No entry occurs twice. Stated through Apart, so that the solver meets
    a pair of positions only when a proof names it.
  */
  ghost predicate Distinct<T>(s: seq<T>) {
    forall i, j :: 0 <= i < j < |s| ==> Apart(s, i, j)
  }

  /** Two different positions of a sequence without repeats hold different entries. */
  lemma DistinctAt<T>(s: seq<T>, i: int, j: int)
    requires Distinct(s) && 0 <= i < |s| && 0 <= j < |s| && i != j
    ensures s[i] != s[j]
  {
    if i < j {
      assert Apart(s, i, j);
    } else {
      assert Apart(s, j, i);
    }
  }

  /** Appending something new keeps a sequence free of repeats. */
  lemma DistinctAppend<T>(s: seq<T>, x: T)
    requires Distinct(s) && x !in s
    ensures Distinct(s + [x])
  {
    var r := s + [x];
    forall i, j | 0 <= i < j < |r|
      ensures Apart(r, i, j)
    {
      if j < |s| {
        assert Apart(s, i, j);
      } else {
        assert r[i] == s[i];
      }
    }
  }

  /** The first position holding x, or -1 when x does not occur. */
  function FirstIndex<T(==)>(s: seq<T>, x: T): (i: int)
    ensures -1 <= i < |s|
    ensures 0 <= i ==> s[i] == x && x !in s[..i]
    ensures i == -1 <==> x !in s
  {
    if |s| == 0 then -1
    else if s[0] == x then 0
    else
      var k := FirstIndex(s[1..], x);
      assert 0 <= k ==> s[..k + 1] == [s[0]] + s[1..][..k];
      if k == -1 then -1 else k + 1
  }

  /** In a sequence without repeats, the first position of s[i] is i. */
  lemma FirstIndexOfDistinct<T>(s: seq<T>, i: int)
    requires Distinct(s) && 0 <= i < |s|
    ensures FirstIndex(s, s[i]) == i
  {
    var r := FirstIndex(s, s[i]);
    assert r < i ==> Apart(s, r, i);
  }

  /** The entries of a sequence, as a set. */
  ghost function Elements<T>(s: seq<T>): (r: set<T>)
    ensures forall i :: 0 <= i < |s| ==> s[i] in r
    ensures forall x :: x in r ==> x in s
  {
    if |s| == 0 then {} else {s[0]} + Elements(s[1..])
  }

  /**
    The entry after the first occurrence of x, wrapping from the last entry
    to the first; an x that does not occur is treated as position -1, so
    its successor is the first entry.
  */
  function Successor<T(==)>(s: seq<T>, x: T): (y: T)
    requires |s| > 0
    ensures y in s
  {
    s[(FirstIndex(s, x) + 1) % |s|]
  }

  /**
    In a sequence without repeats, the successor of an entry is the next
    entry, and the successor of the last entry is the first.
  */
  lemma SuccessorAt<T>(s: seq<T>, i: int)
    requires Distinct(s) && 0 <= i < |s|
    ensures Successor(s, s[i]) == if i < |s| - 1 then s[i + 1] else s[0]
  {
    FirstIndexOfDistinct(s, i);
    var n := |s|;
    var m := i + 1;
    SeatAfter(i, n);
    assert Successor(s, s[i]) == s[m % n];
  }

  /**
    The seat after seat i at a table of n wraps from the last seat to the
    first. Kept apart from SuccessorAt, whose context makes the solver's
    search for this remainder run out of resource.
  */
  lemma SeatAfter(i: int, n: int)
    requires 0 <= i < n
    ensures (i + 1) % n == if i < n - 1 then i + 1 else 0
  {
  }

  /** The successor of something that does not occur is the first entry. */
  lemma SuccessorOfAbsent<T>(s: seq<T>, x: T)
    requires |s| > 0 && x !in s
    ensures Successor(s, x) == s[0]
  {
    assert (FirstIndex(s, x) + 1) % |s| == 0;
  }

  /** k turns of the rotation, starting from x. */
  function Turns<T(==)>(s: seq<T>, x: T, k: nat): T
    requires |s| > 0
  {
    if k == 0 then x else Successor(s, Turns(s, x, k - 1))
  }

  /**
    Starting at position i, k turns (at most one lap) land k positions
    further on, counting past the end from the front again.
  */
  lemma {:induction false} TurnsAt<T>(s: seq<T>, i: nat, k: nat)
    requires Distinct(s) && i < |s| && k <= |s|
    ensures Turns(s, s[i], k) == if i + k < |s| then s[i + k] else s[i + k - |s|]
  {
    if k > 0 {
      var n := |s|;
      var j := if i + k - 1 < n then i + k - 1 else i + k - 1 - n;
      var m := if i + k < n then i + k else i + k - n;
      TurnsAt(s, i, k - 1);
      var before := Turns(s, s[i], k - 1);
      assert before == s[j];
      SuccessorAt(s, j);
      assert m == if j < n - 1 then j + 1 else 0;
      assert Turns(s, s[i], k) == Successor(s, before);
    }
  }

  /** n turns of the rotation around n distinct players return to the start. */
  lemma FullCircle<T>(s: seq<T>, x: T)
    requires Distinct(s) && x in s
    ensures Turns(s, x, |s|) == x
  {
    var i := FirstIndex(s, x);
    TurnsAt(s, i, |s|);
  }

  /** s with every occurrence of x taken out, the rest in their original order. */
  function Without<T(==)>(s: seq<T>, x: T): (r: seq<T>)
    ensures x !in r
    ensures |r| == |s| - multiset(s)[x]
  {
    if |s| == 0 then []
    else
      var init, last := s[..|s| - 1], s[|s| - 1];
      assert s == init + [last];
      var r := Without(init, x);
      if last == x then r else r + [last]
  }

  /** Taking out something that does not occur changes nothing. */
  lemma {:induction false} WithoutAbsent<T>(s: seq<T>, x: T)
    requires x !in s
    ensures Without(s, x) == s
  {
    if |s| > 0 {
      assert s == s[..|s| - 1] + [s[|s| - 1]];
      WithoutAbsent(s[..|s| - 1], x);
    }
  }

  /** In a sequence without repeats every entry occurs exactly once. */
  lemma DistinctOnce<T>(s: seq<T>, k: int)
    requires Distinct(s) && 0 <= k < |s|
    ensures multiset(s)[s[k]] == 1
  {
    assert s == s[..k] + [s[k]] + s[k + 1..];
    forall j | 0 <= j < k
      ensures s[..k][j] != s[k]
    {
      assert Apart(s, j, k);
    }
    forall j | k < j < |s|
      ensures s[j] != s[k]
    {
      assert Apart(s, k, j);
    }
    assert s[k] !in s[..k];
    assert s[k] !in s[k + 1..];
  }

  /** An entry that occurs once, at k, occurs nowhere else. */
  lemma OccursOnlyAt<T>(s: seq<T>, x: T, k: int)
    requires 0 <= k < |s| && s[k] == x && multiset(s)[x] == 1
    ensures forall j :: 0 <= j < |s| && j != k ==> s[j] != x
  {
    forall j | 0 <= j < |s| && j != k
      ensures s[j] != x
    {
      var a, b := if j < k then j else k, if j < k then k else j;
      assert s == s[..b] + s[b..];
      assert s[a] in s[..b] && s[b..][0] == s[b];
    }
  }

  /** Taking out an entry that occurs once, at k, closes the gap at k. */
  lemma {:induction false} WithoutOnce<T>(s: seq<T>, x: T, k: int)
    requires 0 <= k < |s| && s[k] == x && multiset(s)[x] == 1
    ensures Without(s, x) == s[..k] + s[k + 1..]
  {
    var n := |s|;
    var init, last := s[..n - 1], s[n - 1];
    assert s == init + [last];
    assert multiset(s) == multiset(init) + multiset{last};
    if k == n - 1 {
      assert x !in init by {
        assert multiset(init)[x] == 0;
      }
      WithoutAbsent(init, x);
      calc {
        Without(s, x);
        Without(init, x);
        init;
        s[..k] + s[k + 1..];
      }
    } else {
      OccursOnlyAt(s, x, k);
      assert last != x && init[k] == x;
      assert multiset(init)[x] == 1;
      WithoutOnce(init, x, k);
      calc {
        Without(s, x);
        Without(init, x) + [last];
        init[..k] + init[k + 1..] + [last];
        { assert init[..k] == s[..k] && init[k + 1..] + [last] == s[k + 1..]; }
        s[..k] + s[k + 1..];
      }
    }
  }

  /** A sequence that agrees with s before k and with s shifted by one from k on is s without s[k]. */
  lemma GapClosed<T>(r: seq<T>, s: seq<T>, k: int)
    requires 0 <= k < |s| && |r| == |s| - 1
    requires forall j :: 0 <= j < k ==> r[j] == s[j]
    requires forall j :: k <= j < |r| ==> r[j] == s[j + 1]
    ensures r == s[..k] + s[k + 1..]
  {
  }

  /** Closing the gap at k keeps a sequence free of repeats. */
  lemma RemoveAtDistinct<T>(s: seq<T>, k: int)
    requires Distinct(s) && 0 <= k < |s|
    ensures Distinct(s[..k] + s[k + 1..])
  {
    var r := s[..k] + s[k + 1..];
    forall i, j | 0 <= i < j < |r|
      ensures Apart(r, i, j)
    {
      var i' := if i < k then i else i + 1;
      var j' := if j < k then j else j + 1;
      assert r[i] == s[i'] && r[j] == s[j'];
      assert Apart(s, i', j');
    }
  }

  /**
    The position of the lowest score; among equal lowest scores, the
    earliest. A later score replaces the running minimum only when it is
    strictly lower.
  */
  function LowestFirst(scores: seq<int>): (k: nat)
    requires |scores| > 0
    ensures k < |scores|
    ensures forall j :: 0 <= j < |scores| ==> scores[k] <= scores[j]
    ensures forall j :: 0 <= j < k ==> scores[k] < scores[j]
  {
    if |scores| == 1 then 0
    else
      var k := LowestFirst(scores[..|scores| - 1]);
      if scores[|scores| - 1] < scores[k] then |scores| - 1 else k
  }

  /** The two properties of LowestFirst pin the position down. */
  lemma LowestFirstUnique(scores: seq<int>, i: nat)
    requires i < |scores|
    requires forall j :: 0 <= j < |scores| ==> scores[i] <= scores[j]
    requires forall j :: 0 <= j < i ==> scores[i] < scores[j]
    ensures i == LowestFirst(scores)
  {
  }

  /** The lowest of 62, 65 and 65 is the first: the expectation of the game's own check. */
  lemma LowestFirstExample()
    ensures LowestFirst([62, 65, 65]) == 0
  {
  }

  /** Around three distinct entries, the one after the first is the second. */
  lemma SuccessorExample<T>(a: T, b: T, c: T)
    requires a != b && a != c && b != c
    ensures Successor([a, b, c], a) == b
  {
    assert FirstIndex([a, b, c], a) == 0;
  }

  function Sum(s: seq<int>): int {
    if |s| == 0 then 0 else s[0] + Sum(s[1..])
  }

  /** Changing one entry changes the sum by the difference. */
  lemma {:induction false} SumUpdate(s: seq<int>, k: int, v: int)
    requires 0 <= k < |s|
    ensures Sum(s[k := v]) == Sum(s) - s[k] + v
  {
    if k == 0 {
      assert s[k := v][1..] == s[1..];
    } else {
      assert s[k := v][1..] == s[1..][k - 1 := v];
      SumUpdate(s[1..], k - 1, v);
    }
  }

  /** Closing the gap at k takes s[k] off the sum. */
  lemma {:induction false} SumRemoveAt(s: seq<int>, k: int)
    requires 0 <= k < |s|
    ensures Sum(s[..k] + s[k + 1..]) == Sum(s) - s[k]
  {
    if k == 0 {
      assert s[..k] + s[k + 1..] == s[1..];
    } else {
      var r := s[..k] + s[k + 1..];
      assert r[0] == s[0];
      assert r[1..] == s[1..][..k - 1] + s[1..][k..];
      SumRemoveAt(s[1..], k - 1);
    }
  }

  /** n entries that all equal c sum to n * c. */
  lemma {:induction false} SumConstant(s: seq<int>, c: int)
    requires forall i :: 0 <= i < |s| ==> s[i] == c
    ensures Sum(s) == |s| * c
  {
    if |s| > 0 {
      SumConstant(s[1..], c);
      assert Sum(s) == c + (|s| - 1) * c;
    }
  }
}
