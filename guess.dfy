/**
 * Guess evaluation: the ASCII-case-insensitive Levenshtein distance the
 * room uses to compare a chat line with the secret word, and the score
 * bonus for a correct guess.
 */
module Guessing {
  import opened Wrappers

  /**
   * `ROUND_DURATION` of the server's command-line module; that module is not
   * part of this model, so the value is a stand-in. Nothing below depends on
   * it beyond its being positive.
   */
  const ROUND_DURATION: nat := 60

  function ToAsciiLower(c: char): char {
    if 'A' <= c <= 'Z' then (c as int + 32) as char else c
  }

  /** `char::eq_ignore_ascii_case`. */
  predicate EqIgnoreAsciiCase(x: char, y: char) {
    ToAsciiLower(x) == ToAsciiLower(y)
  }

  function Min(x: nat, y: nat): nat { if x <= y then x else y }

  /**
   * The standard edit distance (insertions, deletions and substitutions,
   * each of cost 1), with characters compared up to ASCII case.
   */
  function EditDistance(a: seq<char>, b: seq<char>): nat
    decreases |a| + |b|
  {
    if a == [] then |b|
    else if b == [] then |a|
    else
      var i, j := |a| - 1, |b| - 1;
      var cost := if EqIgnoreAsciiCase(a[i], b[j]) then 0 else 1;
      Min(Min(EditDistance(a[..i], b) + 1, EditDistance(a, b[..j]) + 1), EditDistance(a[..i], b[..j]) + cost)
  }

  /** Dropping the last character of either word changes the distance by at most one. */
  lemma {:induction false} DropLastBound(a: seq<char>, b: seq<char>)
    ensures a != [] ==> EditDistance(a[..|a| - 1], b) <= EditDistance(a, b) + 1
    ensures b != [] ==> EditDistance(a, b[..|b| - 1]) <= EditDistance(a, b) + 1
    decreases |a| + |b|
  {
    if a != [] && b != [] {
      var a', b' := a[..|a| - 1], b[..|b| - 1];
      DropLastBound(a, b');
      DropLastBound(a', b);
      // The distance grows by at most one when a character is appended to either side.
      assert EditDistance(a', b) <= EditDistance(a', b') + 1;
      assert EditDistance(a, b') <= EditDistance(a', b') + 1;
    }
  }

  /**
   * When the last characters match, the distance is that of the two
   * shortened words: the shortcut the source's matrix takes.
   */
  lemma MatchShortcut(a: seq<char>, b: seq<char>)
    requires a != [] && b != [] && EqIgnoreAsciiCase(a[|a| - 1], b[|b| - 1])
    ensures EditDistance(a, b) == EditDistance(a[..|a| - 1], b[..|b| - 1])
  {
    DropLastBound(a[..|a| - 1], b);
    DropLastBound(a, b[..|b| - 1]);
  }

  /** Matrix cell (j, i): the distance between the first i characters of a and the first j of b. */
  function Cell(a: seq<char>, b: seq<char>, i: nat, j: nat): nat
    requires i <= |a| && j <= |b|
  {
    EditDistance(a[..i], b[..j])
  }

  /** The cells of row 0 and column 0. */
  lemma Borders(a: seq<char>, b: seq<char>, i: nat, j: nat)
    requires i <= |a| && j <= |b|
    ensures Cell(a, b, i, 0) == i && Cell(a, b, 0, j) == j
  {
  }

  /** One inner matrix cell, in the form the source computes it. */
  lemma CellStep(a: seq<char>, b: seq<char>, i: nat, j: nat)
    requires 1 <= i <= |a| && 1 <= j <= |b|
    ensures Cell(a, b, i, j) ==
      if EqIgnoreAsciiCase(a[i - 1], b[j - 1]) then Cell(a, b, i - 1, j - 1)
      else 1 + Min(Min(Cell(a, b, i, j - 1), Cell(a, b, i - 1, j)), Cell(a, b, i - 1, j - 1))
  {
    assert a[..i][..i - 1] == a[..i - 1];
    assert b[..j][..j - 1] == b[..j - 1];
    if EqIgnoreAsciiCase(a[i - 1], b[j - 1]) {
      MatchShortcut(a[..i], b[..j]);
    }
  }

  /**
   * `levenshtein_distance`: the Wagner-Fischer matrix, row `j` for the
   * first `j` characters of `b`, column `i` for the first `i` of `a`.
   */
  method LevenshteinDistance(a: string, b: string) returns (d: nat)
    ensures d == EditDistance(a, b)
  {
    var aLen := |a| + 1;
    var bLen := |b| + 1;
    var matrix := new nat[bLen, aLen];
    matrix[0, 0] := 0;
    for i := 1 to aLen
      invariant forall i' :: 0 <= i' < i ==> matrix[0, i'] == i'
    {
      matrix[0, i] := i;
    }
    for j := 1 to bLen
      invariant forall i' :: 0 <= i' < aLen ==> matrix[0, i'] == i'
      invariant forall j' :: 1 <= j' < j ==> matrix[j', 0] == j'
    {
      matrix[j, 0] := j;
    }
    for j := 1 to bLen
      invariant forall j', i' :: 0 <= j' < j && 0 <= i' < aLen ==> matrix[j', i'] == Cell(a, b, i', j')
      invariant forall j' :: j <= j' < bLen ==> matrix[j', 0] == j'
    {
      Borders(a, b, 0, j);
      for i := 1 to aLen
        invariant forall j', i' :: 0 <= j' < j && 0 <= i' < aLen ==> matrix[j', i'] == Cell(a, b, i', j')
        invariant forall i' :: 0 <= i' < i ==> matrix[j, i'] == Cell(a, b, i', j)
        invariant forall j' :: j < j' < bLen ==> matrix[j', 0] == j'
      {
        CellStep(a, b, i, j);
        var x: nat := if EqIgnoreAsciiCase(a[i - 1], b[j - 1]) then
          matrix[j - 1, i - 1]
        else
          1 + Min(Min(matrix[j, i - 1], matrix[j - 1, i]), matrix[j - 1, i - 1]);
        matrix[j, i] := x;
      }
    }
    if bLen == 1 {
      Borders(a, b, aLen - 1, 0);
    }
    d := matrix[bLen - 1, aLen - 1];
    assert a[..|a|] == a && b[..|b|] == b;
  }

  /** The distance lies between the length difference and the longer length. */
  lemma {:induction false} DistanceBounds(a: seq<char>, b: seq<char>)
    ensures EditDistance([], b) == |b| && EditDistance(a, []) == |a|
    ensures |a| - |b| <= EditDistance(a, b) && |b| - |a| <= EditDistance(a, b)
    ensures EditDistance(a, b) <= if |a| >= |b| then |a| else |b|
    decreases |a| + |b|
  {
    if a != [] && b != [] {
      DistanceBounds(a[..|a| - 1], b);
      DistanceBounds(a, b[..|b| - 1]);
      DistanceBounds(a[..|a| - 1], b[..|b| - 1]);
    }
  }

  predicate EqualIgnoringAsciiCase(a: seq<char>, b: seq<char>) {
    |a| == |b| && forall k :: 0 <= k < |a| ==> EqIgnoreAsciiCase(a[k], b[k])
  }

  /** Distance 0 exactly when the words are equal up to ASCII case. */
  lemma {:induction false} DistanceZeroIffEqual(a: seq<char>, b: seq<char>)
    ensures EditDistance(a, b) == 0 <==> EqualIgnoringAsciiCase(a, b)
    decreases |a| + |b|
  {
    if a != [] && b != [] {
      var a', b' := a[..|a| - 1], b[..|b| - 1];
      DistanceZeroIffEqual(a', b');
      DistanceBounds(a', b);
      DistanceBounds(a, b');
      if EqualIgnoringAsciiCase(a, b) {
        assert EqualIgnoringAsciiCase(a', b');
      }
      if EditDistance(a, b) == 0 {
        assert EqualIgnoringAsciiCase(a', b');
        forall k | 0 <= k < |a| ensures EqIgnoreAsciiCase(a[k], b[k]) {
          if k < |a| - 1 { assert a[k] == a'[k] && b[k] == b'[k]; }
        }
      }
    }
  }

  /** The distance does not depend on which word is the guess. */
  lemma {:induction false} DistanceSymmetric(a: seq<char>, b: seq<char>)
    ensures EditDistance(a, b) == EditDistance(b, a)
    decreases |a| + |b|
  {
    if a != [] && b != [] {
      DistanceSymmetric(a[..|a| - 1], b);
      DistanceSymmetric(a, b[..|b| - 1]);
      DistanceSymmetric(a[..|a| - 1], b[..|b| - 1]);
    }
  }

  /**
   * `calculate_score_increase`: 50 plus half the remaining share of the
   * round in percent, the percentage saturating at the `u32` maximum.
   */
  function CalculateScoreIncrease(remainingTime: U32, isDrawing: bool): (s: U32)
  {
    var percent := remainingTime * 100 / ROUND_DURATION;
    var truncated := if percent > U32_MAX then U32_MAX else percent;
    50 + truncated / 2
  }

  /** The increase is at least 50, exactly 50 with no time left, and at most 100 within a round. */
  lemma ScoreIncreaseBounds(remainingTime: U32, isDrawing: bool)
    ensures 50 <= CalculateScoreIncrease(remainingTime, isDrawing)
    ensures remainingTime == 0 ==> CalculateScoreIncrease(remainingTime, isDrawing) == 50
    ensures remainingTime <= ROUND_DURATION ==> CalculateScoreIncrease(remainingTime, isDrawing) <= 100
  {
    if remainingTime <= ROUND_DURATION {
      assert remainingTime * 100 <= ROUND_DURATION * 100;
      assert remainingTime * 100 / ROUND_DURATION <= 100;
    }
  }
}
