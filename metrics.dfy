// The two scores computed when a test is completed: accuracy (share of
// target characters matched at the same position) and words per minute.
// JavaScript numbers are modelled as exact integers where they are finite,
// with the two non-finite values the computations can produce kept apart.

module Metrics {
  import opened Text

  /** A displayed JavaScript number: an integer, +Infinity (a positive count
      divided by zero) or NaN (zero divided by zero). */
  datatype Number = Finite(value: int) | Infinity | NaN

  function Min(a: int, b: int): int {
    if a <= b then a else b
  }

  /** r is p / q rounded to the nearest integer, halves up:
      r - 1/2 <= p / q < r + 1/2. */
  predicate RoundsTo(p: int, q: int, r: int) {
    q * (2 * r - 1) <= 2 * p < q * (2 * r + 1)
  }

  /** Math.round(p / q) for p >= 0 and q > 0: the integer nearest to p / q,
      halves rounded up. */
  function Round(p: nat, q: nat): (r: nat)
    requires q > 0
    ensures RoundsTo(p, q, r)
  {
    var r := (2 * p + q) / (2 * q);
    assert 2 * p + q == 2 * q * r + (2 * p + q) % (2 * q);
    r
  }

  /** The rounding condition has one solution, so any r meeting it is Round(p, q). */
  lemma RoundUnique(p: nat, q: nat, r: int)
    requires q > 0
    requires RoundsTo(p, q, r)
    ensures r == Round(p, q)
  {
    var s := Round(p, q);
    if r < s {
      MultiplyMonotone(q, 2 * r + 1, 2 * s - 1);
    } else if s < r {
      MultiplyMonotone(q, 2 * s + 1, 2 * r - 1);
    }
  }

  /** p / q <= m rounds to at most m. */
  lemma RoundAtMost(p: nat, q: nat, m: nat)
    requires q > 0 && p <= m * q
    ensures Round(p, q) <= m
  {
    var r := Round(p, q);
    if r > m {
      MultiplyMonotone(q, 2 * m + 1, 2 * r - 1);
    }
  }

  lemma MultiplyMonotone(q: nat, x: int, y: int)
    requires x <= y
    ensures q * x <= q * y
  {
    assert q * y - q * x == q * (y - x);
  }

  /** Number of positions i < n where a and b hold the same character. */
  function Matches(a: string, b: string, n: nat): (c: nat)
    requires n <= |a| && n <= |b|
    ensures c <= n
  {
    if n == 0 then 0 else Matches(a, b, n - 1) + (if a[n - 1] == b[n - 1] then 1 else 0)
  }

  /** Every position below n matches exactly when the count is n. */
  lemma {:induction false} AllMatch(a: string, b: string, n: nat)
    requires n <= |a| && n <= |b|
    ensures Matches(a, b, n) == n <==> forall i :: 0 <= i < n ==> a[i] == b[i]
  {
    if n > 0 {
      AllMatch(a, b, n - 1);
    }
  }

  /** No position below n matches exactly when the count is 0. */
  lemma {:induction false} NoneMatch(a: string, b: string, n: nat)
    requires n <= |a| && n <= |b|
    ensures Matches(a, b, n) == 0 <==> forall i :: 0 <= i < n ==> a[i] != b[i]
  {
    if n > 0 {
      NoneMatch(a, b, n - 1);
    }
  }

  /** The number of correctly typed characters: equal positions within the
      overlap of the typed text and the target. */
  function Correct(input: string, target: string): (c: nat)
    ensures c <= |input| && c <= |target|
  {
    Matches(input, target, Min(|input|, |target|))
  }

  /** The accuracy score: round(correct / |target| * 100), which is NaN for an
      empty target and otherwise a percentage. */
  function Accuracy(input: string, target: string): (a: Number)
    ensures a == NaN <==> |target| == 0
    ensures a.Finite? <==> |target| > 0
    ensures a.Finite? ==> 0 <= a.value <= 100
    ensures a.Finite? ==>
              RoundsTo(100 * Correct(input, target), |target|, a.value)
  {
    if |target| == 0 then NaN
    else
      var r := Round(100 * Correct(input, target), |target|);
      RoundAtMost(100 * Correct(input, target), |target|, 100);
      Finite(r)
  }

  /** The counting loop that computes the accuracy score. */
  method CalculateAccuracy(input: string, target: string) returns (accuracy: Number)
    ensures accuracy == Accuracy(input, target)
  {
    var correct := 0;
    var i := 0;
    while i < Min(|input|, |target|)
      invariant i <= Min(|input|, |target|)
      invariant correct == Matches(input, target, i)
    {
      if input[i] == target[i] {
        correct := correct + 1;
      }
      i := i + 1;
    }
    accuracy := if |target| == 0 then NaN else Finite(Round(100 * correct, |target|));
  }

  /** Typing the target exactly scores 100. */
  lemma ExactInputScoresFull(target: string)
    requires |target| > 0
    ensures Accuracy(target, target) == Finite(100)
  {
    AllMatch(target, target, |target|);
    RoundUnique(100 * |target|, |target|, 100);
  }

  /** Input that differs from the target at every overlapping position (in
      particular empty input) scores 0. */
  lemma MismatchedInputScoresZero(input: string, target: string)
    requires |target| > 0
    requires forall i :: 0 <= i < |input| && i < |target| ==> input[i] != target[i]
    ensures Accuracy(input, target) == Finite(0)
  {
    NoneMatch(input, target, Min(|input|, |target|));
    RoundUnique(0, |target|, 0);
  }

  /** The word count of the WPM formula: input.trim().split(' ').length. */
  function WordCount(input: string): (w: nat)
    ensures w == Occurrences(Trim(input), ' ') + 1
  {
    |Split(Trim(input), ' ')|
  }

  /** Math.round(words / (timer / 60)): +Infinity before the first second has
      been counted, otherwise the rounded words per minute. */
  function Wpm(input: string, timer: nat): (w: Number)
    ensures w == Infinity <==> timer == 0
    ensures w.Finite? <==> timer > 0
    ensures w.Finite? ==>
              w.value >= 0 &&
              RoundsTo(60 * WordCount(input), timer, w.value)
  {
    if timer == 0 then Infinity else Finite(Round(60 * WordCount(input), timer))
  }

  /** Text without a space character (newlines and tabs included) counts as
      one word; so does the empty input. */
  lemma {:induction false} NoSpaceIsOneWord(input: string)
    requires ' ' !in input
    ensures WordCount(input) == 1
  {
    var t := Trim(input);
    var a := LeadingWhitespace(input);
    assert t == input[a..a + |t|];
    assert ' ' !in t by {
      forall i | 0 <= i < |t| ensures t[i] != ' ' {
        assert t[i] == input[a + i];
      }
    }
  }

  /** One mismatched character out of two: accuracy 50. */
  lemma HalfCorrectScoresFifty()
    ensures Accuracy("ac", "ab") == Finite(50)
  {
    assert Correct("ac", "ab") == 1;
    RoundUnique(100, 2, 50);
  }

  /** Two space-free words joined by one space count as two words. */
  lemma {:induction false} TwoWords(first: string, second: string)
    requires first != [] && !IsJsWhitespace(first[0]) && ' ' !in first
    requires second != [] && !IsJsWhitespace(second[|second| - 1]) && ' ' !in second
    ensures WordCount(first + [' '] + second) == 2
  {
    var s := first + [' '] + second;
    TrimUnpadded(s);
    OccurrencesAppend(first + [' '], second, ' ');
    OccurrencesAppend(first, [' '], ' ');
  }

  /** Two words in thirty seconds: 4 words per minute. */
  lemma TwoWordsInThirtySeconds()
    ensures Wpm("hello world", 30) == Finite(4)
  {
    assert "hello world" == "hello" + [' '] + "world";
    TwoWords("hello", "world");
    RoundUnique(120, 30, 4);
  }
}
