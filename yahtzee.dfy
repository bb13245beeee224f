/**
 * The game state of yahtzee.py: one turn's dice (`Round`, lines 9-45) and a
 * player's thirteen-slot scorecard (`Player`, lines 48-141).
 *
 * The source draws dice with `random.randint(1, 6)`; here every roll is given
 * its five draws, one per die position, and uses the draw of each position it
 * does not keep.
 */
module Yahtzee {
  import opened Wrappers
  import opened Scoring

  /** Why an operation of the game fails. */
  datatype Error =
    | RollLimitReached   // a fourth roll in one round
    | InvalidIndex       // a slot index below 0 or above 13
    | AlreadyScored      // the slot already holds a roll
    | IndexOutOfRange    // index 13: passes the range test, then fails on the list access
  {
    /** The first three are the game's own `InvalidAction`; the last is Python's `IndexError`. */
    predicate IsInvalidAction()
    {
      !IndexOutOfRange?
    }
  }

  /*
   * Slots in scorecard order: 0..5 ones to sixes (the upper section), 6 three
   * of a kind, 7 four of a kind, 8 full house, 9 small straight, 10 large
   * straight, 11 Yahtzee, 12 chance.
   */
  const Ones := 0
  const Sixes := 5
  const YahtzeeSlot := 11
  const Chance := 12
  const SlotCount := 13

  /** One turn: five dice and the number of rolls made so far (at most three). */
  class Round {
    var dice: array<Die>
    var rolls: nat

    ghost predicate Valid()
      reads this
    {
      dice.Length == 5 && rolls <= 3
    }

    /** A new round, already rolled once with nothing kept. */
    constructor (draws: seq<Die>)
      requires |draws| == 5
      ensures Valid() && fresh(dice)
      ensures rolls == 1 && dice[..] == draws
    {
      // The source starts from five `None` placeholders; any die value stands in for them.
      dice := new Die[5];
      rolls := 0;
      new;
      var first := Roll([false, false, false, false, false], draws);
      assert dice[..] == draws;
    }

    /**
     * Rolls again every die whose `keep` flag is false. A fourth roll fails and
     * changes nothing.
     */
    method Roll(keep: seq<bool>, draws: seq<Die>) returns (r: Result<seq<Die>, Error>)
      requires Valid() && |keep| == 5 && |draws| == 5
      modifies this, dice
      ensures Valid() && dice == old(dice)
      ensures old(rolls) >= 3 ==> r == Err(RollLimitReached) && rolls == old(rolls) && dice[..] == old(dice[..])
      ensures old(rolls) < 3 ==> r == Ok(dice[..]) && rolls == old(rolls) + 1
      ensures old(rolls) < 3 ==> forall i :: 0 <= i < 5 && keep[i] ==> dice[i] == old(dice[i])
      ensures old(rolls) < 3 ==> forall i :: 0 <= i < 5 && !keep[i] ==> dice[i] == draws[i]
    {
      if rolls >= 3 {
        return Err(RollLimitReached);
      }
      rolls := rolls + 1;
      if !keep[0] { dice[0] := draws[0]; }
      if !keep[1] { dice[1] := draws[1]; }
      if !keep[2] { dice[2] := draws[2]; }
      if !keep[3] { dice[3] := draws[3]; }
      if !keep[4] { dice[4] := draws[4]; }
      // The source returns its own list; the model returns the dice as a value.
      return Ok(dice[..]);
    }
  }

  /** The number of filled slots on a scorecard. */
  function Filled(slots: seq<Option<seq<Die>>>): (n: nat)
    ensures n <= |slots|
  {
    if slots == [] then 0
    else (if slots[0].Some? then 1 else 0) + Filled(slots[1..])
  }

  /** Filling an empty slot adds one to the number of filled slots. */
  lemma {:induction false} FilledAfterRecord(slots: seq<Option<seq<Die>>>, i: int, dice: seq<Die>)
    requires 0 <= i < |slots| && slots[i].None?
    ensures Filled(slots[i := Some(dice)]) == Filled(slots) + 1
  {
    if i > 0 {
      FilledAfterRecord(slots[1..], i - 1, dice);
      assert slots[i := Some(dice)][1..] == slots[1..][i - 1 := Some(dice)];
    } else {
      assert slots[i := Some(dice)][1..] == slots[1..];
    }
  }

  /** Every slot is filled exactly when the count of filled slots is the number of slots. */
  lemma {:induction false} FilledAllIff(slots: seq<Option<seq<Die>>>)
    ensures Filled(slots) == |slots| <==> forall i :: 0 <= i < |slots| ==> slots[i].Some?
  {
    if slots != [] {
      FilledAllIff(slots[1..]);
      assert forall i :: 1 <= i < |slots| ==> slots[1..][i - 1] == slots[i];
    }
  }

  /** `[i for i in range(lo, hi) if slots[i] == None]`. */
  function EmptyIndices(slots: seq<Option<seq<Die>>>, lo: int, hi: int): (r: seq<int>)
    requires 0 <= lo && hi <= |slots|
    ensures forall i :: i in r <==> lo <= i < hi && slots[i].None?
    ensures forall j, k :: 0 <= j < k < |r| ==> r[j] < r[k]
    decreases hi - lo
  {
    if lo >= hi then []
    else
      var rest := EmptyIndices(slots, lo + 1, hi);
      assert forall k :: 0 <= k < |rest| ==> rest[k] in rest;
      (if slots[lo].None? then [lo] else []) + rest
  }

  /** The sum of the present entries of a list of optional scores. */
  function SumPresent(scores: seq<Option<int>>): int
  {
    if scores == [] then 0
    else SumPresent(scores[..|scores| - 1]) + (if scores[|scores| - 1].Some? then scores[|scores| - 1].value else 0)
  }

  /**
   * A player's scorecard: thirteen slots, each empty or holding the dice it
   * was scored with, the bonus-Yahtzee counter and the number of rounds played.
   */
  class Player {
    var scores: seq<Option<seq<Die>>>
    var bonusYahtzees: nat
    var rounds: nat

    /** Thirteen slots of five dice each; every round played filled exactly one slot. */
    ghost predicate Valid()
      reads this
    {
      |scores| == SlotCount &&
      (forall i :: 0 <= i < SlotCount && scores[i].Some? ==> |scores[i].value| == 5) &&
      rounds == Filled(scores)
    }

    constructor ()
      ensures Valid()
      ensures scores == seq(SlotCount, _ => None) && bonusYahtzees == 0 && rounds == 0
      ensures TotalScore() == 0
    {
      scores := seq(SlotCount, _ => None);
      bonusYahtzees := 0;
      rounds := 0;
      new;
      assert Filled(scores) == 0 by {
        assert forall i :: 0 <= i < SlotCount ==> scores[i].None?;
        FilledZero(scores);
      }
    }

    /** The empty slots among 0..11, in ascending order; slot 12 (chance) is never listed. */
    function OpenSlots(): (r: seq<int>)
      reads this
      requires Valid()
      ensures forall i :: i in r <==> 0 <= i < 12 && scores[i].None?
      ensures forall j, k :: 0 <= j < k < |r| ==> r[j] < r[k]
    {
      EmptyIndices(scores, 0, 12)
    }

    /**
     * Scores `round`'s dice in slot `index`. Returns whether the game is over
     * (thirteen rounds played). Fails, changing nothing, for an index outside
     * 0..13, for index 13 and for a slot that is already filled.
     */
    method RecordRound(round: Round, index: int) returns (r: Result<bool, Error>)
      requires Valid() && round.Valid()
      modifies this
      ensures Valid()
      ensures (index < 0 || index > 13) ==> r == Err(InvalidIndex)
      ensures index == 13 ==> r == Err(IndexOutOfRange)
      ensures 0 <= index < SlotCount && old(scores[index]).Some? ==> r == Err(AlreadyScored)
      ensures r.Err? ==> scores == old(scores) && bonusYahtzees == old(bonusYahtzees) && rounds == old(rounds)
      ensures r.Ok? <==> 0 <= index < SlotCount && old(scores[index]).None?
      ensures r.Ok? ==> scores == old(scores)[index := Some(round.dice[..])] && rounds == old(rounds) + 1
      ensures r.Ok? ==> (r.value <==> rounds >= 13) && (r.value <==> forall i :: 0 <= i < SlotCount ==> scores[i].Some?)
      ensures r.Ok? ==> bonusYahtzees == old(bonusYahtzees) || bonusYahtzees == old(bonusYahtzees) + 1
      ensures r.Ok? ==> (bonusYahtzees == old(bonusYahtzees) + 1 <==>
                         old(scores[YahtzeeSlot]).Some? && IsOfKind(old(scores[YahtzeeSlot]), 5) && IsOfKind(Some(round.dice[..]), 5))
    {
      if index < 0 || index > 13 {
        return Err(InvalidIndex);
      }
      if index == 13 {
        return Err(IndexOutOfRange);
      }
      if scores[index].Some? {
        return Err(AlreadyScored);
      }
      if scores[YahtzeeSlot].Some? && IsOfKind(scores[YahtzeeSlot], 5) && IsOfKind(Some(round.dice[..]), 5) {
        bonusYahtzees := bonusYahtzees + 1;
      }
      // The source stores a reference to the round's own list; the model stores
      // the dice as a value. Neither caller rolls a round again once it is scored.
      FilledAfterRecord(scores, index, round.dice[..]);
      scores := scores[index := Some(round.dice[..])];
      rounds := rounds + 1;
      FilledAllIff(scores);
      return Ok(rounds >= 13);
    }

    /**
     * The points each slot scores now, or `None` for an empty slot, in slot
     * order.
     */
    function CurrentScores(): (r: seq<Option<int>>)
      reads this
      requires Valid()
      ensures |r| == SlotCount
    {
      [
        TallyNumbers(scores[0], 1, None),
        TallyNumbers(scores[1], 2, None),
        TallyNumbers(scores[2], 3, None),
        TallyNumbers(scores[3], 4, None),
        TallyNumbers(scores[4], 5, None),
        TallyNumbers(scores[5], 6, None),
        if scores[6].None? then None else Some(if IsOfKind(scores[6], 3) then Sum(scores[6].value) else 0),
        if scores[7].None? then None else Some(if IsOfKind(scores[7], 4) then Sum(scores[7].value) else 0),
        if scores[8].None? then None else Some(if IsFullHouse(scores[8]) then 25 else 0),
        if scores[9].None? then None else Some(if IsSmallStraight(scores[9]) then 30 else 0),
        if scores[10].None? then None else Some(if IsLargeStraight(scores[10]) then 40 else 0),
        if scores[11].None? then None else Some(if IsOfKind(scores[11], 5) then 50 else 0),
        if scores[12].None? then None else Some(Sum(scores[12].value))
      ]
    }

    /** The upper section (slots 0..5), computed as the source's `total_score` does. */
    function UpperSection(): int
      reads this
      requires Valid()
    {
      TallyNumbers(scores[0], 1, Some(0)).value
      + TallyNumbers(scores[1], 2, Some(0)).value
      + TallyNumbers(scores[2], 3, Some(0)).value
      + TallyNumbers(scores[3], 4, Some(0)).value
      + TallyNumbers(scores[4], 5, Some(0)).value
      + TallyNumbers(scores[5], 6, Some(0)).value
    }

    /**
     * The final score: the upper section, 35 more when it reaches 63, the lower
     * section and 100 for every bonus Yahtzee.
     */
    function TotalScore(): int
      reads this
      requires Valid()
    {
      var above := UpperSection();
      above + (if above >= 63 then 35 else 0) + LowerSection()
    }

    /** The lower section (slots 6..12) with the bonus Yahtzees, as `total_score` computes it. */
    function LowerSection(): int
      reads this
      requires Valid()
    {
      (if IsOfKind(scores[6], 3) then Sum(scores[6].value) else 0)
      + (if IsOfKind(scores[7], 4) then Sum(scores[7].value) else 0)
      + (if IsFullHouse(scores[8]) then 25 else 0)
      + (if IsSmallStraight(scores[9]) then 30 else 0)
      + (if IsLargeStraight(scores[10]) then 40 else 0)
      + (if IsOfKind(scores[11], 5) then 50 else 0)
      + (if scores[12].Some? then Sum(scores[12].value) else 0)
      + 100 * bonusYahtzees
    }
  }

  lemma {:induction false} FilledZero(slots: seq<Option<seq<Die>>>)
    requires forall i :: 0 <= i < |slots| ==> slots[i].None?
    ensures Filled(slots) == 0
  {
    if slots != [] {
      assert forall i :: 0 <= i < |slots| - 1 ==> slots[1..][i] == slots[i + 1];
      FilledZero(slots[1..]);
    }
  }

  lemma SumPresentStep(scores: seq<Option<int>>, k: nat)
    requires k < |scores|
    ensures SumPresent(scores[..k + 1]) == SumPresent(scores[..k]) + (if scores[k].Some? then scores[k].value else 0)
  {
    assert scores[..k + 1][..k] == scores[..k];
  }

  /**
   * Each entry of the current scores is empty exactly when its slot is; an
   * upper slot shows its face times the count of that face, the Yahtzee slot
   * shows 50 exactly when all five dice agree, and chance shows the dice's sum.
   */
  lemma CurrentScoresMeaning(p: Player)
    requires p.Valid()
    ensures var cs := p.CurrentScores();
      (forall i :: 0 <= i < SlotCount ==> (cs[i].None? <==> p.scores[i].None?)) &&
      (forall i :: Ones <= i <= Sixes && p.scores[i].Some? ==> cs[i] == Some((i + 1) * Count(p.scores[i].value, i + 1))) &&
      (p.scores[YahtzeeSlot].Some? ==>
        (cs[YahtzeeSlot] == Some(50) <==> forall k :: 0 <= k < 5 ==> p.scores[YahtzeeSlot].value[k] == p.scores[YahtzeeSlot].value[0])) &&
      (p.scores[Chance].Some? ==> cs[Chance] == Some(Sum(p.scores[Chance].value)))
  {
    var cs := p.CurrentScores();
    forall i | 0 <= i < SlotCount ensures cs[i].None? <==> p.scores[i].None? {
      if i == 0 {} else if i == 1 {} else if i == 2 {} else if i == 3 {} else if i == 4 {}
      else if i == 5 {} else if i == 6 {} else if i == 7 {} else if i == 8 {} else if i == 9 {}
      else if i == 10 {} else if i == 11 {} else {}
    }
    forall i | Ones <= i <= Sixes && p.scores[i].Some? ensures cs[i] == Some((i + 1) * Count(p.scores[i].value, i + 1)) {
      if i == 0 {} else if i == 1 {} else if i == 2 {} else if i == 3 {} else if i == 4 {} else {}
    }
    if p.scores[YahtzeeSlot].Some? {
      FiveOfKindIffUniform(p.scores[YahtzeeSlot].value);
    }
  }

  lemma UpperScoresMatch(p: Player)
    requires p.Valid()
    ensures SumPresent(p.CurrentScores()[..6]) == p.UpperSection()
  {
    var cs := p.CurrentScores();
    SumPresentStep(cs, 0); SumPresentStep(cs, 1); SumPresentStep(cs, 2);
    SumPresentStep(cs, 3); SumPresentStep(cs, 4); SumPresentStep(cs, 5);
  }

  lemma LowerScoresMatch(p: Player)
    requires p.Valid()
    ensures SumPresent(p.CurrentScores()) == SumPresent(p.CurrentScores()[..6]) + p.LowerSection() - 100 * p.bonusYahtzees
  {
    var cs := p.CurrentScores();
    SumPresentStep(cs, 6); SumPresentStep(cs, 7); SumPresentStep(cs, 8);
    SumPresentStep(cs, 9); SumPresentStep(cs, 10); SumPresentStep(cs, 11);
    SumPresentStep(cs, 12);
    assert cs[..13] == cs;
  }

  /**
   * The total is the sum of the current scores of the filled slots, plus 35
   * when the upper slots (0..5) add up to at least 63, plus 100 per bonus
   * Yahtzee.
   */
  lemma TotalScoreDecomposes(p: Player)
    requires p.Valid()
    ensures var cs := p.CurrentScores();
      p.TotalScore() == SumPresent(cs) + (if SumPresent(cs[..6]) >= 63 then 35 else 0) + 100 * p.bonusYahtzees
  {
    UpperScoresMatch(p);
    LowerScoresMatch(p);
  }

  /** A scorecard whose slots 0..11 are filled lists no open slot, even when chance is empty. */
  lemma NoOpenSlotsOnceTwelveFilled(p: Player)
    requires p.Valid()
    requires forall i :: 0 <= i < 12 ==> p.scores[i].Some?
    ensures p.OpenSlots() == []
  {
  }

  /** A round's fourth roll fails, whatever was kept and drawn. */
  method RollLimitScenario(d0: seq<Die>, d1: seq<Die>, d2: seq<Die>, d3: seq<Die>, keep: seq<bool>)
    returns (rolls: nat, last: Result<seq<Die>, Error>)
    requires |d0| == 5 && |d1| == 5 && |d2| == 5 && |d3| == 5 && |keep| == 5
    ensures rolls == 3 && last == Err(RollLimitReached)
  {
    var round := new Round(d0);
    var second := round.Roll(keep, d1);
    var third := round.Roll(keep, d2);
    assert third.Ok?;
    last := round.Roll(keep, d3);
    rolls := round.rolls;
  }
}
