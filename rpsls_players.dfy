/**
 * Players, computer opponents and the round bookkeeping of the class
 * version of Rock-Paper-Scissors-Lizard-Spock
 * (rock_paper_scissors_lizard_spock_procedural.rb).
 *
 * Ruby's `sample` becomes a nondeterministic pick (`:|`) from the set the
 * source samples from, so every contract holds whatever is drawn.  Float
 * weights and percentages are exact `real`s.
 */
module RpslsPlayers {
  import opened RpslsMoves
  import opened RpslsHistory
  import opened Wrappers

  class Player {
    /** `move`: nil until the first `choose`. */
    var move: Option<Move>
    var score: nat
    const history: History

    ghost predicate Valid()
      reads this, history
    {
      history.Valid()
    }

    constructor ()
      ensures Valid() && fresh(history)
      ensures move == None && score == 0
      ensures history.choices == [] && history.results == []
      ensures forall m: Move :: history.wins[m] == 0
    {
      move := None;
      score := 0;
      history := new History();
    }

    /** `choose(choice)`: instantiate the move class of `choice`. */
    method Choose(choice: Move)
      modifies this`move
      ensures move == Some(choice)
    {
      move := Some(choice);
    }

    /** `record_choice` */
    method RecordChoice()
      requires Valid() && move.Some?
      modifies history`choices
      ensures Valid()
      ensures history.choices == old(history.choices) + [move.value]
    {
      history.choices := history.choices + [move.value];
    }

    /**
     * `record_result(other_player)`: append exactly one of `:won`, `:lost`,
     * `:draw`; on `:won` only, the score and the win count of the played
     * move each rise by one; then refresh the percentages.
     */
    method RecordResult(other: Player)
      requires Valid() && move.Some? && other.move.Some?
      modifies this`score, history`results, history`wins, history`percentages
      ensures Valid()
      ensures move == old(move) && other.move == old(other.move)
      ensures var r := RoundResult(move.value, other.move.value);
        && history.results == old(history.results) + [r]
        && score == old(score) + (if r == Won then 1 else 0)
        && history.wins == CreditWin(old(history.wins), move.value, r == Won)
      ensures history.choices == old(history.choices)
    {
      var gameResultRecord := history.results;
      var result: Outcome;
      if Beats(move.value, other.move.value) {
        result := Won;
        score := score + 1;
        UpdateMoveWins(move.value);
      } else if LosesTo(move.value, other.move.value) {
        result := Lost;
      } else {
        result := Draw;
      }
      history.results := gameResultRecord + [result];
      CountWonAppend(gameResultRecord, result);
      history.UpdateWinPercentages();
    }

    /** `update_move_wins(move)` */
    method UpdateMoveWins(mv: Move)
      requires HasAllMoves(history.wins)
      modifies history`wins
      ensures HasAllMoves(history.wins)
      ensures history.wins == old(history.wins)[mv := old(history.wins)[mv] + 1]
      ensures WinCount(history.wins) == old(WinCount(history.wins)) + 1
    {
      history.wins := history.wins[mv := history.wins[mv] + 1];
    }
  }

  /** The win counts after a round: one more for `m` if it won, else unchanged. */
  function CreditWin(wins: map<Move, nat>, m: Move, won: bool): map<Move, nat>
    requires m in wins
  {
    if won then wins[m := wins[m] + 1] else wins
  }

  /** Appending a result adds one to the count of wins exactly when it is `:won`. */
  lemma CountWonAppend(results: seq<Outcome>, r: Outcome)
    ensures CountWon(results + [r]) == CountWon(results) + (if r == Won then 1 else 0)
  {
    assert (results + [r])[..|results|] == results;
  }

  // ---------------------------------------------------------------------
  // Choice distributions and the weighted pool

  /** `Move::NUMBER_OF_MOVE_OPTIONS` */
  const NumberOfMoveOptions: int := 5

  /** `Computer::MODELS`: the three opponents the player may pick. */
  datatype Model = Hal | R2D2 | DeepThought

  /** The five weights of a `@choice_distribution`, added up. */
  function Total(d: map<Move, real>): real
    requires HasAllMoves(d)
  {
    d[Rock] + d[Paper] + d[Scissors] + d[Lizard] + d[Spock]
  }

  /** Every move weighted, no weight negative, and the weights add up to 100. */
  predicate WeightsValid(d: map<Move, real>) {
    && HasAllMoves(d)
    && (forall m: Move :: d[m] >= 0.0)
    && Total(d) == 100.0
  }

  /** `create_evenly_distributed_choice_set`: `100 / NUMBER_OF_MOVE_OPTIONS` each, in integers. */
  function EvenDistribution(): (d: map<Move, real>)
    ensures HasAllMoves(d)
  {
    ValuesEnumerateAllMoves();
    map m: Move | m in AllMoves :: (100 / NumberOfMoveOptions) as real
  }

  /** The table `Hal#choose` installs: scissors 60, every other move 10. */
  function HalDistribution(): (d: map<Move, real>)
    ensures HasAllMoves(d)
  {
    ValuesEnumerateAllMoves();
    map m: Move | m in AllMoves :: if m == Scissors then 60.0 else 10.0
  }

  /** The table `R2D2#choose` installs: rock 60, every other move 10. */
  function R2D2Distribution(): (d: map<Move, real>)
    ensures HasAllMoves(d)
  {
    ValuesEnumerateAllMoves();
    map m: Move | m in AllMoves :: if m == Rock then 60.0 else 10.0
  }

  lemma FixedDistributionsValid()
    ensures WeightsValid(EvenDistribution())
    ensures WeightsValid(HalDistribution()) && WeightsValid(R2D2Distribution())
    ensures forall m: Move :: EvenDistribution()[m] == 20.0
  {
    assert 100 / NumberOfMoveOptions == 20;
  }

  /** `value.to_i.times`: the number of copies a weight contributes to the pool. */
  function Copies(w: real): (n: nat)
    ensures w >= 0.0 ==> n as real <= w < n as real + 1.0
  {
    if w >= 0.0 then w.Floor else 0
  }

  /** n copies of one move. */
  function Repeat(m: Move, n: nat): (s: seq<Move>)
    ensures |s| == n && forall i :: 0 <= i < n ==> s[i] == m
  {
    if n == 0 then [] else Repeat(m, n - 1) + [m]
  }

  /** The pool built from the moves `s` in order: each move `Copies(weight)` times. */
  function PoolOf(d: map<Move, real>, s: seq<Move>): seq<Move>
    requires HasAllMoves(d)
  {
    if s == [] then []
    else PoolOf(d, s[..|s| - 1]) + Repeat(s[|s| - 1], Copies(d[s[|s| - 1]]))
  }

  /** `create_new_choice_set`: the pool over `Move::VALUES`. */
  function Pool(d: map<Move, real>): seq<Move>
    requires HasAllMoves(d)
  {
    PoolOf(d, Values)
  }

  lemma {:induction false} RepeatCount(m: Move, n: nat, x: Move)
    ensures multiset(Repeat(m, n))[x] == if x == m then n else 0
  {
    if n > 0 {
      RepeatCount(m, n - 1, x);
    }
  }

  /** The pool laid out block by block, in `Move::VALUES` order. */
  lemma PoolBlocks(d: map<Move, real>)
    requires HasAllMoves(d)
    ensures Pool(d) == Repeat(Rock, Copies(d[Rock])) + Repeat(Paper, Copies(d[Paper]))
      + Repeat(Scissors, Copies(d[Scissors])) + Repeat(Lizard, Copies(d[Lizard]))
      + Repeat(Spock, Copies(d[Spock]))
  {
    var v4, v3, v2, v1 := Values[..4], Values[..3], Values[..2], Values[..1];
    assert v4 == [Rock, Paper, Scissors, Lizard] && v4[..3] == v3;
    assert v3 == [Rock, Paper, Scissors] && v3[..2] == v2;
    assert v2 == [Rock, Paper] && v2[..1] == v1;
    assert v1 == [Rock] && v1[..0] == [];
    assert PoolOf(d, v1) == Repeat(Rock, Copies(d[Rock]));
    assert PoolOf(d, v2) == PoolOf(d, v1) + Repeat(Paper, Copies(d[Paper]));
    assert PoolOf(d, v3) == PoolOf(d, v2) + Repeat(Scissors, Copies(d[Scissors]));
    assert PoolOf(d, v4) == PoolOf(d, v3) + Repeat(Lizard, Copies(d[Lizard]));
    assert Pool(d) == PoolOf(d, v4) + Repeat(Spock, Copies(d[Spock]));
  }

  /**
   * The pool holds each move exactly `floor(weight)` times, and its size
   * is the sum of those counts.
   */
  lemma PoolCounts(d: map<Move, real>)
    requires HasAllMoves(d)
    ensures forall m: Move :: multiset(Pool(d))[m] == Copies(d[m])
    ensures |Pool(d)| == Copies(d[Rock]) + Copies(d[Paper]) + Copies(d[Scissors])
      + Copies(d[Lizard]) + Copies(d[Spock])
  {
    PoolBlocks(d);
    forall m: Move ensures multiset(Pool(d))[m] == Copies(d[m]) {
      RepeatCount(Rock, Copies(d[Rock]), m);
      RepeatCount(Paper, Copies(d[Paper]), m);
      RepeatCount(Scissors, Copies(d[Scissors]), m);
      RepeatCount(Lizard, Copies(d[Lizard]), m);
      RepeatCount(Spock, Copies(d[Spock]), m);
    }
  }

  /** A move is in the pool exactly when its weight is at least 1. */
  lemma PoolMembership(d: map<Move, real>, m: Move)
    requires HasAllMoves(d)
    ensures m in Pool(d) <==> Copies(d[m]) > 0
  {
    PoolCounts(d);
  }

  /** The even set is a pool of 100 holding 20 of each move. */
  lemma EvenPool()
    ensures |Pool(EvenDistribution())| == 100
    ensures forall m: Move :: multiset(Pool(EvenDistribution()))[m] == 20
  {
    FixedDistributionsValid();
    PoolCounts(EvenDistribution());
  }

  /** Hal's pool holds 60 scissors and 10 of each other move. */
  lemma HalPool()
    ensures |Pool(HalDistribution())| == 100
    ensures forall m: Move :: multiset(Pool(HalDistribution()))[m] == if m == Scissors then 60 else 10
  {
    FixedCopies();
    PoolCounts(HalDistribution());
  }

  /** R2D2's pool holds 60 rocks and 10 of each other move. */
  lemma R2D2Pool()
    ensures |Pool(R2D2Distribution())| == 100
    ensures forall m: Move :: multiset(Pool(R2D2Distribution()))[m] == if m == Rock then 60 else 10
  {
    FixedCopies();
    PoolCounts(R2D2Distribution());
  }

  lemma FixedCopies()
    ensures forall m: Move :: Copies(HalDistribution()[m]) == if m == Scissors then 60 else 10
    ensures forall m: Move :: Copies(R2D2Distribution()[m]) == if m == Rock then 60 else 10
  {
    assert Copies(60.0) == 60 && Copies(10.0) == 10;
  }

  /**
   * Weights that are non-negative and add up to 100 leave at least 96
   * moves in the pool (each floor loses less than 1), so drawing from it
   * never yields nil.
   */
  lemma PoolNotEmpty(d: map<Move, real>)
    requires WeightsValid(d)
    ensures |Pool(d)| >= 96
  {
    PoolCounts(d);
    var n := Copies(d[Rock]) + Copies(d[Paper]) + Copies(d[Scissors]) + Copies(d[Lizard]) + Copies(d[Spock]);
    assert (n as real) + 5.0 > Total(d);
  }

  // ---------------------------------------------------------------------
  // DeepThought's adjustment of the distribution

  /** The moves of `s` other than `x`: `Move::VALUES.clone` with `delete(x)`. */
  function Without(s: seq<Move>, x: Move): (r: seq<Move>)
    ensures forall m :: m in r <==> m in s && m != x
  {
    if s == [] then []
    else (if s[0] == x then [] else [s[0]]) + Without(s[1..], x)
  }

  /** No move occurs twice. */
  predicate Distinct(s: seq<Move>) {
    forall i, j :: 0 <= i < j < |s| ==> s[i] != s[j]
  }

  /** The `reduce` of `add_to_other_moves`: the weights of `s`, summed left to right. */
  function SumOver(d: map<Move, real>, s: seq<Move>): real
    requires HasAllMoves(d)
  {
    if s == [] then 0.0 else SumOver(d, s[..|s| - 1]) + d[s[|s| - 1]]
  }

  /** The other moves add up to the total minus the dominant move's weight. */
  lemma OtherMovesSum(d: map<Move, real>, dom: Move)
    requires HasAllMoves(d)
    ensures Distinct(Without(Values, dom)) && |Without(Values, dom)| == NumberOfMoveOptions - 1
    ensures SumOver(d, Without(Values, dom)) == Total(d) - d[dom]
  {
    WithoutDistinct(Values, dom);
    OthersInOrder(dom);
    SumOfOthers(d, dom);
  }

  /** The four moves other than `dom`, in `VALUES` order, weigh the total less `dom`'s weight. */
  lemma SumOfOthers(d: map<Move, real>, dom: Move)
    requires HasAllMoves(d)
    ensures SumOver(d, Others(dom)) == Total(d) - d[dom]
  {
    SumOf4(d, Others(dom));
  }

  /** The four moves other than `dom`, in `VALUES` order. */
  function Others(dom: Move): (o: seq<Move>)
    ensures |o| == 4
  {
    match dom
    case Rock => [Paper, Scissors, Lizard, Spock]
    case Paper => [Rock, Scissors, Lizard, Spock]
    case Scissors => [Rock, Paper, Lizard, Spock]
    case Lizard => [Rock, Paper, Scissors, Spock]
    case Spock => [Rock, Paper, Scissors, Lizard]
  }

  /** Deleting one element of a list without repeats leaves a list without repeats, one shorter. */
  lemma {:induction false} WithoutDistinct(s: seq<Move>, x: Move)
    requires Distinct(s) && x in s
    ensures Distinct(Without(s, x)) && |Without(s, x)| == |s| - 1
  {
    var t := s[1..];
    assert Distinct(t) by {
      forall i, j | 0 <= i < j < |t| ensures t[i] != t[j] {
        assert t[i] == s[i + 1] && t[j] == s[j + 1];
      }
    }
    if s[0] == x {
      assert x !in t by {
        forall i | 0 <= i < |t| ensures t[i] != x {
          assert t[i] == s[i + 1];
        }
      }
      WithoutAbsent(t, x);
    } else {
      WithoutDistinct(t, x);
      var r := Without(t, x);
      assert Without(s, x) == [s[0]] + r;
      assert s[0] !in t by {
        forall i | 0 <= i < |t| ensures t[i] != s[0] {
          assert t[i] == s[i + 1];
        }
      }
      assert s[0] !in r;
    }
  }

  /** Deleting an element that is not there changes nothing. */
  lemma {:induction false} WithoutAbsent(s: seq<Move>, x: Move)
    requires x !in s
    ensures Without(s, x) == s
  {
    if s != [] {
      WithoutAbsent(s[1..], x);
    }
  }

  /** `Without` leaves the four other moves in `VALUES` order. */
  lemma OthersInOrder(dom: Move)
    ensures Without(Values, dom) == Others(dom)
  {
  }

  lemma SumOf4(d: map<Move, real>, s: seq<Move>)
    requires HasAllMoves(d) && |s| == 4
    ensures SumOver(d, s) == d[s[0]] + d[s[1]] + d[s[2]] + d[s[3]]
  {
    var s3, s2, s1 := s[..3], s[..2], s[..1];
    assert s3[..2] == s2 && s2[..1] == s1 && s1[..0] == [];
    assert SumOver(d, s1) == d[s[0]];
    assert SumOver(d, s2) == SumOver(d, s1) + d[s[1]];
    assert SumOver(d, s3) == SumOver(d, s2) + d[s[2]];
    assert SumOver(d, s) == SumOver(d, s3) + d[s[3]];
  }

  /** `subtract_from_dominant_move`: take `difference / 4` off, unless that goes below 0. */
  function Subtracted(d: map<Move, real>, dom: Move, difference: real): map<Move, real>
    requires HasAllMoves(d)
  {
    var amount := difference / ((NumberOfMoveOptions - 1) as real);
    if d[dom] - amount >= 0.0 then d[dom := d[dom] - amount] else d
  }

  /**
   * `add_to_other_moves`: add `difference / 16` to each of `others`,
   * unless their sum would then exceed 100.
   */
  function Added(d: map<Move, real>, others: seq<Move>, difference: real): map<Move, real>
    requires HasAllMoves(d)
  {
    var amount := difference / (((NumberOfMoveOptions - 1) * (NumberOfMoveOptions - 1)) as real);
    if SumOver(d, others) + ((NumberOfMoveOptions - 1) as real) * amount <= 100.0 then
      map m: Move | m in d :: if m in others then d[m] + amount else d[m]
    else d
  }

  /** `update_choice_distribution`: nothing unless the difference is positive. */
  function Adjusted(d: map<Move, real>, dom: Move, difference: real): map<Move, real>
    requires HasAllMoves(d)
  {
    if difference <= 0.0 then d
    else Added(Subtracted(d, dom, difference), Without(Values, dom), difference)
  }

  /**
   * On a distribution whose weights add up to 100 the two guards agree:
   * the dominant weight drops by `difference / 4` exactly when the other
   * four each rise by `difference / 16`.  So an adjustment either moves
   * weight from the dominant move to the others or changes nothing.
   */
  lemma AdjustmentStepsFireTogether(d: map<Move, real>, dom: Move, difference: real)
    requires WeightsValid(d) && difference > 0.0
    ensures var a := Adjusted(d, dom, difference);
      HasAllMoves(a) &&
      if d[dom] >= difference / 4.0 then
        a[dom] == d[dom] - difference / 4.0 &&
        forall m: Move :: m != dom ==> a[m] == d[m] + difference / 16.0
      else a == d
  {
    if d[dom] >= difference / 4.0 {
      BothStepsFire(d, dom, difference);
    } else {
      NeitherStepFires(d, dom, difference);
    }
  }

  lemma BothStepsFire(d: map<Move, real>, dom: Move, difference: real)
    requires WeightsValid(d) && difference > 0.0 && d[dom] >= difference / 4.0
    ensures var a := Adjusted(d, dom, difference);
      && HasAllMoves(a)
      && a[dom] == d[dom] - difference / 4.0
      && forall m: Move :: m != dom ==> a[m] == d[m] + difference / 16.0
  {
    var s := Subtracted(d, dom, difference);
    SubtractedSpec(d, dom, difference);
    OthersAfterSubtraction(d, dom, difference);
    AddedSpec(s, Without(Values, dom), difference);
  }

  lemma NeitherStepFires(d: map<Move, real>, dom: Move, difference: real)
    requires WeightsValid(d) && difference > 0.0 && d[dom] < difference / 4.0
    ensures Adjusted(d, dom, difference) == d
  {
    assert Subtracted(d, dom, difference) == d;
    OthersAfterSubtraction(d, dom, difference);
    assert SumOver(d, Without(Values, dom)) + difference / 4.0 > 100.0;
    AddedSpec(d, Without(Values, dom), difference);
  }

  /** Subtraction leaves the other four weights, so their sum is 100 minus the dominant weight. */
  lemma OthersAfterSubtraction(d: map<Move, real>, dom: Move, difference: real)
    requires WeightsValid(d)
    ensures HasAllMoves(Subtracted(d, dom, difference))
    ensures SumOver(Subtracted(d, dom, difference), Without(Values, dom)) == 100.0 - d[dom]
  {
    var s := Subtracted(d, dom, difference);
    SubtractedSpec(d, dom, difference);
    OtherMovesSum(s, dom);
    TotalWithout(d, s, dom);
  }

  lemma SubtractedSpec(d: map<Move, real>, dom: Move, difference: real)
    requires HasAllMoves(d)
    ensures var s := Subtracted(d, dom, difference);
      && HasAllMoves(s)
      && (forall m: Move :: m != dom ==> s[m] == d[m])
      && s[dom] == if d[dom] >= difference / 4.0 then d[dom] - difference / 4.0 else d[dom]
  {
  }

  lemma AddedSpec(d: map<Move, real>, others: seq<Move>, difference: real)
    requires HasAllMoves(d)
    ensures var a := Added(d, others, difference);
      && HasAllMoves(a)
      && if SumOver(d, others) + difference / 4.0 <= 100.0 then
           forall m: Move :: a[m] == if m in others then d[m] + difference / 16.0 else d[m]
         else a == d
  {
  }

  /** Two tables that differ at most at `dom` agree on the total of the others. */
  lemma TotalWithout(d: map<Move, real>, e: map<Move, real>, dom: Move)
    requires HasAllMoves(d) && HasAllMoves(e)
    requires forall m: Move :: m != dom ==> d[m] == e[m]
    ensures Total(d) - d[dom] == Total(e) - e[dom]
  {
    match dom
    case Rock =>
    case Paper =>
    case Scissors =>
    case Lizard =>
    case Spock =>
  }

  /**
   * Non-negative weights adding up to 100 stay so after any adjustment;
   * when both steps fire the total is preserved, and otherwise neither fires.
   */
  lemma AdjustedKeepsWeightsValid(d: map<Move, real>, dom: Move, difference: real)
    requires WeightsValid(d)
    ensures WeightsValid(Adjusted(d, dom, difference))
  {
    if difference > 0.0 {
      AdjustmentStepsFireTogether(d, dom, difference);
      var a := Adjusted(d, dom, difference);
      if d[dom] >= difference / 4.0 {
        assert Total(a) == Total(d) by {
          match dom
          case Rock =>
          case Paper =>
          case Scissors =>
          case Lizard =>
          case Spock =>
        }
      }
    }
  }

  // ---------------------------------------------------------------------
  // Computer opponents

  /** `Computer` with its three subclasses, told apart by `model`. */
  class Computer {
    const model: Model
    const player: Player
    var distribution: map<Move, real>

    ghost predicate Valid()
      reads this, player, player.history
    {
      player.Valid() && WeightsValid(distribution)
    }

    /** `initialize`: the evenly distributed choice set, then `Player#initialize`. */
    constructor (model: Model)
      ensures Valid() && fresh(player) && fresh(player.history)
      ensures this.model == model && distribution == EvenDistribution()
      ensures player.move == None && player.score == 0 && player.history.results == []
    {
      this.model := model;
      distribution := EvenDistribution();
      player := new Player();
      FixedDistributionsValid();
    }

    /** `create_new_choice_set`: each move `value.to_i` times, in `Move::VALUES` order. */
    method ChoiceSet() returns (choiceSet: seq<Move>)
      requires HasAllMoves(distribution)
      ensures choiceSet == Pool(distribution)
    {
      choiceSet := [];
      for i := 0 to |Values|
        invariant choiceSet == PoolOf(distribution, Values[..i])
      {
        var choice := Values[i];
        var times := Copies(distribution[choice]);
        assert Values[..i + 1][..i] == Values[..i];
        for k := 0 to times
          invariant choiceSet == PoolOf(distribution, Values[..i]) + Repeat(choice, k)
        {
          choiceSet := choiceSet + [choice];
        }
      }
      assert Values[..|Values|] == Values;
    }

    /** `choose_from_weighted_distribution`: a draw from the pool. */
    method ChooseFromWeightedDistribution() returns (choice: Move)
      requires WeightsValid(distribution)
      ensures choice in Pool(distribution) && Copies(distribution[choice]) > 0
    {
      var choiceSet := ChoiceSet();
      PoolNotEmpty(distribution);
      var k :| 0 <= k < |choiceSet|;
      choice := choiceSet[k];
      PoolMembership(distribution, choice);
    }

    /**
     * `threshold_condition_met?`: the opponent's dominant move wins at least
     * 20% of the rounds and this computer has recorded more than 3 results.
     */
    function ThresholdConditionMet(other: Player, dom: Move): bool
      reads player, player.history, other, other.history
      requires other.Valid()
    {
      other.history.percentages[dom] >= WinPercentageThreshold as real
        && |player.history.results| > DataHeadstartLength
    }

    /** The `difference_in_win_percentage` of `choose_based_on`. */
    function Difference(other: Player, dom: Move): real
      reads player, player.history, other, other.history
      requires player.Valid() && other.Valid()
    {
      other.history.percentages[dom] - player.history.percentages[dom]
    }

    /** `update_choice_distribution(opponent_dominant_move, difference)` */
    method UpdateChoiceDistribution(dom: Move, difference: real)
      requires WeightsValid(distribution)
      modifies this`distribution
      ensures distribution == Adjusted(old(distribution), dom, difference)
      ensures WeightsValid(distribution)
    {
      AdjustedKeepsWeightsValid(distribution, dom, difference);
      if !(difference > 0.0) {
        return;
      }
      var otherMoves := Without(Values, dom);
      OtherMovesSum(distribution, dom);
      SubtractFromDominantMove(dom, difference);
      AddToOtherMoves(otherMoves, difference);
    }

    /** `subtract_from_dominant_move` */
    method SubtractFromDominantMove(dom: Move, difference: real)
      requires HasAllMoves(distribution)
      modifies this`distribution
      ensures distribution == Subtracted(old(distribution), dom, difference)
    {
      var amount := difference / ((NumberOfMoveOptions - 1) as real);
      if !(distribution[dom] - amount >= 0.0) {
        return;
      }
      distribution := distribution[dom := distribution[dom] - amount];
    }

    /** `add_to_other_moves(other_moves, difference)` */
    method AddToOtherMoves(otherMoves: seq<Move>, difference: real)
      requires HasAllMoves(distribution) && Distinct(otherMoves)
      modifies this`distribution
      ensures distribution == Added(old(distribution), otherMoves, difference)
    {
      var amount := difference / (((NumberOfMoveOptions - 1) * (NumberOfMoveOptions - 1)) as real);
      var sumOfOtherMoves := 0.0;
      for i := 0 to |otherMoves|
        invariant sumOfOtherMoves == SumOver(distribution, otherMoves[..i])
      {
        assert otherMoves[..i + 1][..i] == otherMoves[..i];
        sumOfOtherMoves := sumOfOtherMoves + distribution[otherMoves[i]];
      }
      assert otherMoves[..|otherMoves|] == otherMoves;
      var sumAfterAddition := sumOfOtherMoves + ((NumberOfMoveOptions - 1) as real) * amount;
      if !(sumAfterAddition <= 100.0) {
        return;
      }
      ghost var before := distribution;
      for i := 0 to |otherMoves|
        invariant HasAllMoves(distribution)
        invariant forall m: Move :: distribution[m] == if m in otherMoves[..i] then before[m] + amount else before[m]
      {
        assert forall m: Move :: m in otherMoves[..i + 1] <==> m in otherMoves[..i] || m == otherMoves[i];
        assert otherMoves[i] !in otherMoves[..i];
        distribution := distribution[otherMoves[i] := distribution[otherMoves[i]] + amount];
      }
      assert otherMoves[..|otherMoves|] == otherMoves;
    }

    /**
     * `choose` of each model.  Hal and R2D2 install their fixed table and
     * draw from its pool.  DeepThought finds the opponent's dominant move;
     * past the threshold it adjusts its distribution and draws from the
     * pool, otherwise it picks any move uniformly (`Move::VALUES.sample`)
     * and leaves the distribution alone.
     */
    method Choose(other: Player)
      requires Valid() && other.Valid()
      modifies this`distribution, player`move
      ensures Valid() && player.move.Some?
      ensures model == Hal ==>
        distribution == HalDistribution() && player.move.value in Pool(HalDistribution())
      ensures model == R2D2 ==>
        distribution == R2D2Distribution() && player.move.value in Pool(R2D2Distribution())
      ensures model == DeepThought ==>
        var dom := old(other.history.DominantMove()).value;
        if old(ThresholdConditionMet(other, dom)) then
          && distribution == Adjusted(old(distribution), dom, old(Difference(other, dom)))
          && player.move.value in Pool(distribution)
        else distribution == old(distribution)
    {
      match model
      case Hal =>
        ChooseFromTable(HalDistribution());
      case R2D2 =>
        ChooseFromTable(R2D2Distribution());
      case DeepThought =>
        ChooseAdaptively(other);
    }

    /**
     * The `choose` of `DeepThought`: past the threshold, adjust the
     * distribution against the opponent's dominant move and draw from the
     * pool; otherwise pick any move.
     */
    method ChooseAdaptively(other: Player)
      requires Valid() && other.Valid()
      modifies this`distribution, player`move
      ensures Valid() && player.move.Some?
      ensures var dom := old(other.history.DominantMove()).value;
        if old(ThresholdConditionMet(other, dom)) then
          && distribution == Adjusted(old(distribution), dom, old(Difference(other, dom)))
          && player.move.value in Pool(distribution)
        else distribution == old(distribution)
    {
      var opponentDominantMove := other.history.DominantMove().value;
      if ThresholdConditionMet(other, opponentDominantMove) {
        var difference := Difference(other, opponentDominantMove);
        UpdateChoiceDistribution(opponentDominantMove, difference);
        var choice := ChooseFromWeightedDistribution();
        player.Choose(choice);
      } else {
        var choice :| choice in Values;
        player.Choose(choice);
      }
    }

    /** The `choose` of `Hal` and `R2D2`: install the fixed table, then draw from its pool. */
    method ChooseFromTable(table: map<Move, real>)
      requires Valid() && (table == HalDistribution() || table == R2D2Distribution())
      modifies this`distribution, player`move
      ensures Valid() && distribution == table
      ensures player.move.Some? && player.move.value in Pool(table)
    {
      distribution := table;
      FixedDistributionsValid();
      var choice := ChooseFromWeightedDistribution();
      player.Choose(choice);
    }
  }

  /** `DeepThought::WIN_PERCENTAGE_THRESHOLD` */
  const WinPercentageThreshold: int := 20
  /** `DeepThought::DATA_HEADSTART_LENGTH` */
  const DataHeadstartLength: int := 3

  /**
   * Past the threshold the opponent really has won with its dominant
   * move: at least one recorded win, and at least one win in five rounds.
   */
  lemma ThresholdMeansOpponentWonWithIt(other: History, dom: Move)
    requires other.Valid()
    requires other.percentages[dom] >= WinPercentageThreshold as real
    ensures other.wins[dom] > 0 && |other.results| > 0
    ensures (other.wins[dom] as real) * 5.0 >= |other.results| as real
  {
    PercentageAtLeast(other.wins[dom], |other.results|, WinPercentageThreshold as real);
  }

  lemma PercentageAtLeast(wins: nat, rounds: nat, c: real)
    requires c > 0.0 && Percentage(wins, rounds) >= c
    ensures rounds > 0 && (wins as real) * 100.0 >= c * (rounds as real)
  {
    var n := rounds as real;
    var x := (wins as real) * 100.0;
    assert x / n >= c;
    assert x == (x / n) * n;
  }

  // ---------------------------------------------------------------------
  // The game

  /** `RPSLSGame::MAX_SCORE` */
  const MaxScore: nat := 7

  /** `RPSLSGame`: a human against one computer model. */
  class Game {
    const human: Player
    const computer: Computer

    /** The two players keep separate histories of equal length. */
    ghost predicate Valid()
      reads this, human, human.history, computer, computer.player, computer.player.history
    {
      && human.Valid() && computer.Valid()
      && human != computer.player
      && human.history != computer.player.history
      && |human.history.results| == |computer.player.history.results|
    }

    constructor (model: Model)
      ensures Valid() && fresh(human) && fresh(computer)
      ensures computer.model == model
      ensures human.score == 0 && computer.player.score == 0
    {
      human := new Player();
      computer := new Computer(model);
    }

    /**
     * `max_reached?`: a player has exactly `MaxScore` points. While both
     * scores are within `MaxScore`, the game goes on exactly when both are
     * below it.
     */
    function MaxReached(): (r: bool)
      reads this, human, computer, computer.player
      ensures r ==> human.score == MaxScore || computer.player.score == MaxScore
      ensures human.score <= MaxScore && computer.player.score <= MaxScore ==>
        (!r <==> human.score < MaxScore && computer.player.score < MaxScore)
    {
      human.score == MaxScore || computer.player.score == MaxScore
    }

    /** `make_choices`: the human's validated choice, then the computer's. */
    method MakeChoices(humanChoice: Move)
      requires Valid()
      modifies human`move, computer`distribution, computer.player`move
      ensures Valid()
      ensures human.move == Some(humanChoice) && computer.player.move.Some?
      ensures computer.model == Hal ==>
        computer.distribution == HalDistribution() && computer.player.move.value in Pool(HalDistribution())
      ensures computer.model == R2D2 ==>
        computer.distribution == R2D2Distribution() && computer.player.move.value in Pool(R2D2Distribution())
      ensures computer.model == DeepThought ==>
        var dom := old(human.history.DominantMove()).value;
        if old(computer.ThresholdConditionMet(human, dom)) then
          && computer.distribution == Adjusted(old(computer.distribution), dom, old(computer.Difference(human, dom)))
          && computer.player.move.value in Pool(computer.distribution)
        else computer.distribution == old(computer.distribution)
    {
      human.Choose(humanChoice);
      computer.Choose(human);
    }

    /** `record_choices` */
    method RecordChoices()
      requires Valid() && human.move.Some? && computer.player.move.Some?
      modifies human.history`choices, computer.player.history`choices
      ensures Valid()
      ensures human.history.choices == old(human.history.choices) + [human.move.value]
      ensures computer.player.history.choices == old(computer.player.history.choices) + [computer.player.move.value]
    {
      human.RecordChoice();
      computer.player.RecordChoice();
    }

    /**
     * `record_results`: both histories grow by one entry, the human's entry
     * is `:won` exactly when the computer's is `:lost` (and the other way
     * round), and at most one score rises, by one.
     */
    method RecordResults()
      requires Valid() && human.move.Some? && computer.player.move.Some?
      modifies human`score, human.history`results, human.history`wins, human.history`percentages
      modifies computer.player`score, computer.player.history`results, computer.player.history`wins,
        computer.player.history`percentages
      ensures Valid()
      ensures var h := RoundResult(human.move.value, computer.player.move.value);
        && human.history.results == old(human.history.results) + [h]
        && computer.player.history.results == old(computer.player.history.results) + [Mirror(h)]
        && human.score == old(human.score) + (if h == Won then 1 else 0)
        && computer.player.score == old(computer.player.score) + (if h == Lost then 1 else 0)
        && human.history.wins == CreditWin(old(human.history.wins), human.move.value, h == Won)
        && computer.player.history.wins == CreditWin(old(computer.player.history.wins), computer.player.move.value, h == Lost)
      ensures human.history.choices == old(human.history.choices)
      ensures computer.player.history.choices == old(computer.player.history.choices)
      ensures human.score + computer.player.score <= old(human.score + computer.player.score) + 1
      ensures old(!MaxReached() && human.score <= MaxScore && computer.player.score <= MaxScore) ==>
        human.score <= MaxScore && computer.player.score <= MaxScore
        && !(human.score == MaxScore && computer.player.score == MaxScore)
    {
      ReciprocalResults(human.move.value, computer.player.move.value);
      human.RecordResult(computer.player);
      assert computer.player.history.results == old(computer.player.history.results);
      assert computer.player.score == old(computer.player.score);
      computer.player.RecordResult(human);
    }
  }
}
