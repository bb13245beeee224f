/**
 * The category helpers of the dice game (yahtzee.py, lines 144-198): per-face
 * counts of a roll, the single-number tally of the upper section and the
 * predicates for of-a-kind, full house and the two straights.
 *
 * Each predicate takes an optional roll, as the source's helpers accept `None`
 * for an empty scorecard slot and answer `False` for it.
 */
module Scoring {
  import opened Wrappers

  /** A die face: the only values a roll ever produces. */
  type Die = x: int | 1 <= x <= 6 witness 1

  /** Python's `sum` over a list of integers. */
  function Sum(s: seq<int>): int
  {
    if s == [] then 0 else s[0] + Sum(s[1..])
  }

  lemma {:induction false} SumNonNegative(s: seq<nat>)
    ensures Sum(s) >= 0
  {
    if s != [] {
      SumNonNegative(s[1..]);
    }
  }

  lemma SumUnfold(s: seq<int>, i: nat)
    requires i < |s|
    ensures Sum(s[i..]) == s[i] + Sum(s[i + 1..])
  {
    assert s[i..][1..] == s[i + 1..];
  }

  lemma SumOfSix(s: seq<int>)
    requires |s| == 6
    ensures Sum(s) == s[0] + s[1] + s[2] + s[3] + s[4] + s[5]
  {
    assert s[0..] == s;
    SumUnfold(s, 0); SumUnfold(s, 1); SumUnfold(s, 2);
    SumUnfold(s, 3); SumUnfold(s, 4); SumUnfold(s, 5);
    assert s[6..] == [];
  }

  // ---------------------------------------------------------------------------
  // Face counts (`number_counts`)
  // ---------------------------------------------------------------------------

  /** The number of dice showing `face`, counted die by die in roll order. */
  function Count(dice: seq<Die>, face: int): (n: nat)
    ensures n <= |dice|
  {
    if dice == [] then 0
    else Count(dice[..|dice| - 1], face) + (if dice[|dice| - 1] == face then 1 else 0)
  }

  /** The count agrees with the multiplicity of the face in the roll's multiset. */
  lemma {:induction false} CountIsMultiplicity(dice: seq<Die>, face: int)
    ensures Count(dice, face) == multiset(dice)[face]
  {
    if dice != [] {
      var n := |dice|;
      CountIsMultiplicity(dice[..n - 1], face);
      assert dice == dice[..n - 1] + [dice[n - 1]];
      assert multiset(dice) == multiset(dice[..n - 1]) + multiset{dice[n - 1]};
    }
  }

  /** A face has a positive count exactly when some die shows it. */
  lemma CountPositiveIffPresent(dice: seq<Die>, face: int)
    ensures Count(dice, face) > 0 <==> face in dice
  {
    CountIsMultiplicity(dice, face);
  }

  /** Every die shows `face` exactly when the face's count is the number of dice. */
  lemma {:induction false} CountAllIffUniform(dice: seq<Die>, face: int)
    ensures Count(dice, face) == |dice| <==> forall i :: 0 <= i < |dice| ==> dice[i] == face
  {
    if dice != [] {
      var n := |dice|;
      var prefix := dice[..n - 1];
      assert forall i :: 0 <= i < n - 1 ==> prefix[i] == dice[i];
      CountAllIffUniform(prefix, face);
    }
  }

  /**
   * The per-face tally that `number_counts` returns: index k holds the number
   * of dice showing face k + 1.
   */
  function Counts(dice: seq<Die>): (c: seq<nat>)
    ensures |c| == 6
  {
    seq(6, k => Count(dice, k + 1))
  }

  /** Entry `face - 1` of the tally is the count of `face`. */
  lemma CountsAt(dice: seq<Die>, face: int)
    requires 1 <= face <= 6
    ensures Counts(dice)[face - 1] == Count(dice, face)
  {
  }

  /**
   * `number_counts` fills a list of six zeros, adding one at `counts[i - 1]`
   * for each die `i`, in roll order.
   */
  method NumberCounts(dice: seq<Die>) returns (counts: seq<nat>)
    ensures |counts| == 6
    ensures forall face :: 1 <= face <= 6 ==> counts[face - 1] == multiset(dice)[face]
  {
    var tally := new nat[6] [0, 0, 0, 0, 0, 0];
    var j := 0;
    while j < |dice|
      invariant 0 <= j <= |dice|
      invariant tally[..] == Counts(dice[..j])
    {
      assert dice[..j + 1][..j] == dice[..j];
      tally[dice[j] - 1] := tally[dice[j] - 1] + 1;
      j := j + 1;
    }
    assert dice[..j] == dice;
    counts := tally[..];
    forall face | 1 <= face <= 6 ensures counts[face - 1] == multiset(dice)[face] {
      CountIsMultiplicity(dice, face);
    }
  }

  /** The six face counts of a roll add up to the number of dice. */
  lemma {:induction false} CountsSumToLength(dice: seq<Die>)
    ensures Sum(Counts(dice)) == |dice|
  {
    SumOfSix(Counts(dice));
    if dice != [] {
      CountsSumToLength(dice[..|dice| - 1]);
      SumOfSix(Counts(dice[..|dice| - 1]));
    }
  }

  // ---------------------------------------------------------------------------
  // Sorting the counts in descending order (`sorted(counts, reverse=True)`)
  // ---------------------------------------------------------------------------

  predicate SortedDesc(s: seq<int>)
  {
    forall i, j :: 0 <= i <= j < |s| ==> s[i] >= s[j]
  }

  function InsertDesc(x: nat, s: seq<nat>): (r: seq<nat>)
    requires SortedDesc(s)
    ensures |r| == |s| + 1 && multiset(r) == multiset(s) + multiset{x}
    ensures SortedDesc(r)
  {
    if s == [] || x >= s[0] then [x] + s
    else
      var rest := InsertDesc(x, s[1..]);
      assert s == [s[0]] + s[1..];
      assert forall k :: 0 <= k < |rest| ==> rest[k] in multiset(s[1..]) + multiset{x};
      [s[0]] + rest
  }

  /**
   * The counts sorted from largest to smallest. The source calls the library
   * sort; this is an insertion sort, and its contract is all the model uses.
   */
  function SortDesc(s: seq<nat>): (r: seq<nat>)
    ensures |r| == |s| && multiset(r) == multiset(s)
    ensures SortedDesc(r)
  {
    if s == [] then []
    else
      assert s == [s[0]] + s[1..];
      InsertDesc(s[0], SortDesc(s[1..]))
  }

  /** The first of the sorted counts is the largest count. */
  lemma SortedHeadIsMax(s: seq<nat>)
    requires |s| > 0
    ensures SortDesc(s)[0] in s
    ensures forall i :: 0 <= i < |s| ==> s[i] <= SortDesc(s)[0]
  {
    var r := SortDesc(s);
    assert r[0] in multiset(r);
    forall i | 0 <= i < |s| ensures s[i] <= r[0] {
      assert s[i] in multiset(s);
      var j :| 0 <= j < |r| && r[j] == s[i];
    }
  }

  lemma {:induction false} InsertDescSum(x: nat, s: seq<nat>)
    requires SortedDesc(s)
    ensures Sum(InsertDesc(x, s)) == x + Sum(s)
  {
    if s != [] && x < s[0] {
      InsertDescSum(x, s[1..]);
    }
  }

  /** Sorting keeps the total of the counts. */
  lemma {:induction false} SortDescSum(s: seq<nat>)
    ensures Sum(SortDesc(s)) == Sum(s)
  {
    if s != [] {
      SortDescSum(s[1..]);
      InsertDescSum(s[0], SortDesc(s[1..]));
    }
  }

  // ---------------------------------------------------------------------------
  // Categories
  // ---------------------------------------------------------------------------

  /** Every die of `matching = [i for i in dice if i == number]`, in roll order. */
  function Matching(dice: seq<Die>, number: int): (m: seq<Die>)
    ensures forall i :: 0 <= i < |m| ==> m[i] == number
    ensures |m| == multiset(dice)[number]
  {
    if dice == [] then []
    else
      assert dice == [dice[0]] + dice[1..];
      (if dice[0] == number then [dice[0]] else []) + Matching(dice[1..], number)
  }

  /**
   * The upper-section score of a roll for `number` (`tally_numbers`): the
   * number times the count of that face, or `emptyValue` for an empty slot.
   */
  function TallyNumbers(dice: Option<seq<Die>>, number: int, emptyValue: Option<int>): (r: Option<int>)
    ensures dice.None? ==> r == emptyValue
    ensures dice.Some? ==> r == Some(number * Count(dice.value, number))
  {
    if dice.None? then emptyValue
    else
      CountIsMultiplicity(dice.value, number);
      Some(|Matching(dice.value, number)| * number)
  }

  /** At least `requiredCount` dice share a face (`is_of_kind`). */
  predicate IsOfKind(dice: Option<seq<Die>>, requiredCount: int)
  {
    dice.Some? && SortDesc(Counts(dice.value))[0] >= requiredCount
  }

  /** Either five of a kind, or three of one face and two of another (`is_full_house`). */
  predicate IsFullHouse(dice: Option<seq<Die>>)
  {
    dice.Some? &&
    var counts := SortDesc(Counts(dice.value));
    counts[0] == 5 || (counts[0] == 3 && counts[1] == 2)
  }

  /**
   * `is_small_straight`, formula for formula: faces 3 and 4, and either face 2
   * with face 1 or 5, or faces 3 and 6. The last test names face 3 where a run
   * 3-4-5-6 would need face 5.
   */
  predicate IsSmallStraight(dice: Option<seq<Die>>)
  {
    dice.Some? &&
    var counts := Counts(dice.value);
    counts[2] > 0 && counts[3] > 0 &&
    ((counts[1] > 0 && (counts[0] > 0 || counts[4] > 0)) || (counts[2] > 0 && counts[5] > 0))
  }

  /** Faces 2, 3, 4 and 5, and face 1 or 6 (`is_large_straight`). */
  predicate IsLargeStraight(dice: Option<seq<Die>>)
  {
    dice.Some? &&
    var counts := Counts(dice.value);
    counts[1] > 0 && counts[2] > 0 && counts[3] > 0 && counts[4] > 0 && (counts[0] > 0 || counts[5] > 0)
  }

  // ---------------------------------------------------------------------------
  // What the categories mean
  // ---------------------------------------------------------------------------

  /** Every face from `lo` to `hi` shows on some die. */
  predicate HasRun(dice: seq<Die>, lo: int, hi: int)
  {
    forall face :: lo <= face <= hi ==> face in dice
  }

  lemma FacesPresent(dice: seq<Die>)
    ensures forall face :: 1 <= face <= 6 ==> (Counts(dice)[face - 1] > 0 <==> face in dice)
  {
    forall face | 1 <= face <= 6 ensures Counts(dice)[face - 1] > 0 <==> face in dice {
      CountPositiveIffPresent(dice, face);
    }
  }

  lemma RunOfFour(dice: seq<Die>, lo: int)
    ensures HasRun(dice, lo, lo + 3) <==> lo in dice && lo + 1 in dice && lo + 2 in dice && lo + 3 in dice
  {
    if lo in dice && lo + 1 in dice && lo + 2 in dice && lo + 3 in dice {
      forall face | lo <= face <= lo + 3 ensures face in dice {
        if face == lo {} else if face == lo + 1 {} else if face == lo + 2 {} else {}
      }
    }
  }

  lemma RunOfFive(dice: seq<Die>, lo: int)
    ensures HasRun(dice, lo, lo + 4) <==> HasRun(dice, lo, lo + 3) && lo + 4 in dice
  {
    if HasRun(dice, lo, lo + 3) && lo + 4 in dice {
      forall face | lo <= face <= lo + 4 ensures face in dice {
        if face < lo + 4 {}
      }
    }
  }

  /** The largest of six counts reaches `n` exactly when one of them does. */
  lemma SortedHeadReaches(c: seq<nat>, n: int)
    requires |c| == 6
    ensures SortDesc(c)[0] >= n <==> exists k :: 0 <= k < 6 && c[k] >= n
  {
    SortedHeadIsMax(c);
    var top := SortDesc(c)[0];
    if top >= n {
      var k :| 0 <= k < 6 && c[k] == top;
    }
  }

  /** Some entry of the tally reaches `n` exactly when some face's count does. */
  lemma SomeCountReaches(dice: seq<Die>, n: int)
    ensures (exists k :: 0 <= k < 6 && Counts(dice)[k] >= n) <==>
            (exists face :: 1 <= face <= 6 && Count(dice, face) >= n)
  {
    var c := Counts(dice);
    if exists k :: 0 <= k < 6 && c[k] >= n {
      var k :| 0 <= k < 6 && c[k] >= n;
      CountsAt(dice, k + 1);
    }
    if exists face :: 1 <= face <= 6 && Count(dice, face) >= n {
      var face :| 1 <= face <= 6 && Count(dice, face) >= n;
      CountsAt(dice, face);
    }
  }

  /** Of-a-kind holds exactly when some face shows on at least `n` dice. */
  lemma OfKindIff(dice: seq<Die>, n: int)
    ensures IsOfKind(Some(dice), n) <==> exists face :: 1 <= face <= 6 && Count(dice, face) >= n
  {
    SortedHeadReaches(Counts(dice), n);
    SomeCountReaches(dice, n);
  }

  /** Five of a kind is exactly a roll whose dice all show one face. */
  lemma FiveOfKindIffUniform(dice: seq<Die>)
    requires |dice| == 5
    ensures IsOfKind(Some(dice), 5) <==> forall i :: 0 <= i < 5 ==> dice[i] == dice[0]
  {
    OfKindIff(dice, 5);
    if IsOfKind(Some(dice), 5) {
      var face :| 1 <= face <= 6 && Count(dice, face) >= 5;
      CountAllIffUniform(dice, face);
    }
    if forall i :: 0 <= i < 5 ==> dice[i] == dice[0] {
      CountAllIffUniform(dice, dice[0]);
    }
  }

  /** Of-a-kind is monotone in the required count: four of a kind is also three of a kind. */
  lemma OfKindMonotone(dice: Option<seq<Die>>, n: int, m: int)
    requires m <= n && IsOfKind(dice, n)
    ensures IsOfKind(dice, m)
  {
  }

  /**
   * Six counts that add up to five, sorted in descending order, start with 5,
   * or with 3 then 2, exactly when one count is 5 or one is 3 and another 2.
   */
  lemma SortedFullHouseShape(c: seq<nat>)
    requires |c| == 6 && Sum(c) == 5
    ensures var s := SortDesc(c);
      (s[0] == 5 || (s[0] == 3 && s[1] == 2)) <==>
      (exists k :: 0 <= k < 6 && c[k] == 5) ||
      (exists k, l :: 0 <= k < 6 && 0 <= l < 6 && c[k] == 3 && c[l] == 2)
  {
    var s := SortDesc(c);
    SortedHeadIsMax(c);
    SortDescSum(c);
    SumUnfold(s, 0);
    SumUnfold(s, 1);
    SumNonNegative(s[2..]);
    assert s[0] + s[1] <= 5;
    if s[0] == 3 && s[1] == 2 {
      assert s[1] in multiset(c);
      var l :| 0 <= l < 6 && c[l] == s[1];
    }
    if exists k, l :: 0 <= k < 6 && 0 <= l < 6 && c[k] == 3 && c[l] == 2 {
      var k, l :| 0 <= k < 6 && 0 <= l < 6 && c[k] == 3 && c[l] == 2;
      assert c[l] in multiset(s);
      var j :| 0 <= j < 6 && s[j] == 2;
      assert s[0] >= 3 && j != 0 && s[1] >= 2;
    }
  }

  lemma SomeCountIs(dice: seq<Die>, n: int)
    ensures (exists k :: 0 <= k < 6 && Counts(dice)[k] == n) <==>
            (exists f :: 1 <= f <= 6 && Count(dice, f) == n)
  {
    if exists f :: 1 <= f <= 6 && Count(dice, f) == n {
      var f :| 1 <= f <= 6 && Count(dice, f) == n;
      assert Counts(dice)[f - 1] == n;
    }
    if exists k :: 0 <= k < 6 && Counts(dice)[k] == n {
      var k :| 0 <= k < 6 && Counts(dice)[k] == n;
      assert Count(dice, k + 1) == n;
    }
  }

  lemma SomeCountsAre(dice: seq<Die>, n: int, m: int)
    ensures (exists k, l :: 0 <= k < 6 && 0 <= l < 6 && Counts(dice)[k] == n && Counts(dice)[l] == m) <==>
            (exists f, g :: 1 <= f <= 6 && 1 <= g <= 6 && Count(dice, f) == n && Count(dice, g) == m)
  {
    if exists f, g :: 1 <= f <= 6 && 1 <= g <= 6 && Count(dice, f) == n && Count(dice, g) == m {
      var f, g :| 1 <= f <= 6 && 1 <= g <= 6 && Count(dice, f) == n && Count(dice, g) == m;
      assert Counts(dice)[f - 1] == n && Counts(dice)[g - 1] == m;
    }
    if exists k, l :: 0 <= k < 6 && 0 <= l < 6 && Counts(dice)[k] == n && Counts(dice)[l] == m {
      var k, l :| 0 <= k < 6 && 0 <= l < 6 && Counts(dice)[k] == n && Counts(dice)[l] == m;
      var f, g := k + 1, l + 1;
      assert 1 <= f <= 6 && 1 <= g <= 6 && Count(dice, f) == n && Count(dice, g) == m;
      assert exists f, g :: 1 <= f <= 6 && 1 <= g <= 6 && Count(dice, f) == n && Count(dice, g) == m;
    }
  }

  /**
   * For a roll of five dice, a full house is five of a kind, or three dice of
   * one face and two of another.
   */
  lemma FullHouseIff(dice: seq<Die>)
    requires |dice| == 5
    ensures IsFullHouse(Some(dice)) <==>
      (exists f :: 1 <= f <= 6 && Count(dice, f) == 5) ||
      (exists f, g :: 1 <= f <= 6 && 1 <= g <= 6 && Count(dice, f) == 3 && Count(dice, g) == 2)
  {
    CountsSumToLength(dice);
    SortedFullHouseShape(Counts(dice));
    SomeCountIs(dice, 5);
    SomeCountsAre(dice, 3, 2);
  }

  /** Five of a kind scores as a full house. */
  lemma FiveOfKindIsFullHouse(dice: seq<Die>)
    requires |dice| == 5 && IsOfKind(Some(dice), 5)
    ensures IsFullHouse(Some(dice))
  {
    OfKindIff(dice, 5);
    var f :| 1 <= f <= 6 && Count(dice, f) >= 5;
    FullHouseIff(dice);
  }

  /** A full house holds three of a kind. */
  lemma FullHouseIsThreeOfKind(dice: seq<Die>)
    requires |dice| == 5 && IsFullHouse(Some(dice))
    ensures IsOfKind(Some(dice), 3)
  {
  }

  /**
   * The small-straight formula accepts every run of four faces (1-4, 2-5,
   * 3-6) and, beyond those, any roll showing faces 3, 4 and 6.
   */
  lemma SmallStraightIff(dice: seq<Die>)
    ensures IsSmallStraight(Some(dice)) <==>
      HasRun(dice, 1, 4) || HasRun(dice, 2, 5) || HasRun(dice, 3, 6) ||
      (3 in dice && 4 in dice && 6 in dice)
  {
    FacesPresent(dice);
    RunOfFour(dice, 1);
    RunOfFour(dice, 2);
    RunOfFour(dice, 3);
  }

  /** A large straight is a run of five faces, 1-5 or 2-6. */
  lemma LargeStraightIff(dice: seq<Die>)
    ensures IsLargeStraight(Some(dice)) <==> HasRun(dice, 1, 5) || HasRun(dice, 2, 6)
  {
    FacesPresent(dice);
    RunOfFour(dice, 1);
    RunOfFour(dice, 2);
    RunOfFive(dice, 1);
    RunOfFive(dice, 2);
  }

  /** Every large straight is a small straight. */
  lemma LargeStraightIsSmallStraight(dice: Option<seq<Die>>)
    requires IsLargeStraight(dice)
    ensures IsSmallStraight(dice)
  {
  }

  /** Faces 3, 4 and 6 with no run of four still count as a small straight. */
  lemma SmallStraightAcceptsGap()
    ensures IsSmallStraight(Some([3, 4, 6, 6, 6]))
    ensures !HasRun([3, 4, 6, 6, 6], 1, 4) && !HasRun([3, 4, 6, 6, 6], 2, 5) && !HasRun([3, 4, 6, 6, 6], 3, 6)
  {
    SmallStraightIff([3, 4, 6, 6, 6]);
    assert 5 !in [3, 4, 6, 6, 6];
    assert 2 !in [3, 4, 6, 6, 6];
  }

  /** The roll 2, 2, 3, 4, 5 is a small straight but not a large one. */
  lemma StraightsOfTwoTwoThreeFourFive()
    ensures IsSmallStraight(Some([2, 2, 3, 4, 5]))
    ensures !IsLargeStraight(Some([2, 2, 3, 4, 5]))
  {
    var d: seq<Die> := [2, 2, 3, 4, 5];
    SmallStraightIff(d);
    LargeStraightIff(d);
    assert 2 in d && 3 in d && 4 in d && 5 in d;
    assert 1 !in d && 6 !in d;
  }
}
