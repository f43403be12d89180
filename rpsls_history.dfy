/**
 * Per-player match statistics of the class version of
 * Rock-Paper-Scissors-Lizard-Spock: the `History` class, the result of one
 * round as seen by one player, and the `dominant_move` query.
 */
module RpslsHistory {
  import opened RpslsMoves
  import opened Wrappers

  /** The entries `:won`, `:lost` and `:draw` of `history.game[:result]`. */
  datatype Outcome = Won | Lost | Draw

  /**
   * The entry `record_result` appends for a player who played `mine`
   * against `theirs`: `:won` if `mine > theirs`, else `:lost` if
   * `mine < theirs`, else `:draw`.
   */
  function RoundResult(mine: Move, theirs: Move): (r: Outcome)
    ensures r == Won <==> Beats(mine, theirs)
    ensures r == Lost <==> LosesTo(mine, theirs)
    ensures r == Draw <==> mine == theirs
  {
    if Beats(mine, theirs) then Won
    else if LosesTo(mine, theirs) then Lost
    else Draw
  }

  /** What the other player records for the same round. */
  function Mirror(o: Outcome): Outcome {
    match o
    case Won => Lost
    case Lost => Won
    case Draw => Draw
  }

  /**
   * The two players of a round record reciprocal results: one `:won` and
   * one `:lost`, or two `:draw`.
   */
  lemma ReciprocalResults(a: Move, b: Move)
    ensures RoundResult(b, a) == Mirror(RoundResult(a, b))
    ensures RoundResult(a, b) == Won <==> RoundResult(b, a) == Lost
  {
    BeatsIsConverseOfLosesTo(a, b);
    BeatsIsConverseOfLosesTo(b, a);
  }

  /** The number of `:won` entries in a result log. */
  function CountWon(results: seq<Outcome>): (n: nat)
    ensures n <= |results|
  {
    if results == [] then 0
    else CountWon(results[..|results| - 1]) + (if results[|results| - 1] == Won then 1 else 0)
  }

  /** A table with an entry for every move, as the source's per-move hashes have. */
  predicate HasAllMoves<V>(table: map<Move, V>) {
    forall m: Move :: m in table
  }

  /** The sum of the per-move win counts. */
  function WinCount(wins: map<Move, nat>): nat
    requires HasAllMoves(wins)
  {
    wins[Rock] + wins[Paper] + wins[Scissors] + wins[Lizard] + wins[Spock]
  }

  lemma WinAtMostWinCount(wins: map<Move, nat>, m: Move)
    requires HasAllMoves(wins)
    ensures wins[m] <= WinCount(wins)
  {
    match m
    case Rock =>
    case Paper =>
    case Scissors =>
    case Lizard =>
    case Spock =>
  }

  /** The sum of the per-move win percentages. */
  function PercentageSum(pct: map<Move, real>): real
    requires HasAllMoves(pct)
  {
    pct[Rock] + pct[Paper] + pct[Scissors] + pct[Lizard] + pct[Spock]
  }

  /** `wins * 100.to_f / match_length`, and the initial 0 before any round. */
  function Percentage(wins: nat, rounds: nat): real {
    if rounds == 0 then 0.0 else (wins as real) * 100.0 / (rounds as real)
  }

  lemma PercentageBounds(wins: nat, rounds: nat)
    requires wins <= rounds
    ensures 0.0 <= Percentage(wins, rounds) <= 100.0
  {
    if rounds > 0 {
      var n := rounds as real;
      assert (wins as real) * 100.0 <= n * 100.0;
      assert Percentage(wins, rounds) <= (n * 100.0) / n;
    }
  }

  lemma PercentageAdds(a: nat, b: nat, rounds: nat)
    ensures Percentage(a, rounds) + Percentage(b, rounds) == Percentage(a + b, rounds)
  {
  }

  class History {
    /** `game[:choice]` */
    var choices: seq<Move>
    /** `game[:result]` */
    var results: seq<Outcome>
    /** `move[mv][:wins]` */
    var wins: map<Move, nat>
    /** `move[mv][:win_percentage]` */
    var percentages: map<Move, real>

    /**
     * Every move has an entry, the win counts add up to the `:won`
     * entries of the log, and each percentage is up to date.
     */
    ghost predicate Valid()
      reads this
    {
      && HasAllMoves(wins)
      && HasAllMoves(percentages)
      && WinCount(wins) == CountWon(results)
      && forall m: Move :: percentages[m] == Percentage(wins[m], |results|)
    }

    /** `initialize` with `initiate_move_hash`. */
    constructor ()
      ensures Valid()
      ensures choices == [] && results == []
      ensures forall m: Move :: wins[m] == 0 && percentages[m] == 0.0
    {
      var w: map<Move, nat>, p: map<Move, real> := map[], map[];
      for i := 0 to |Values|
        invariant w.Keys == p.Keys == set j | 0 <= j < i :: Values[j]
        invariant forall m :: m in w ==> w[m] == 0
        invariant forall m :: m in p ==> p[m] == 0.0
      {
        w := w[Values[i] := 0];
        p := p[Values[i] := 0.0];
      }
      forall m: Move ensures m in w && m in p {
        assert Values[IndexOf(m)] == m;
      }
      choices, results := [], [];
      wins, percentages := w, p;
    }

    /**
     * `update_win_percentages`: recompute every move's percentage from
     * its win count and the number of rounds recorded so far.
     */
    method UpdateWinPercentages()
      requires HasAllMoves(wins) && HasAllMoves(percentages)
      requires |results| > 0
      modifies this`percentages
      ensures HasAllMoves(percentages)
      ensures forall m: Move :: percentages[m] == Percentage(wins[m], |results|)
    {
      var matchLength := |results|;
      for i := 0 to |Values|
        invariant HasAllMoves(percentages)
        invariant forall j :: 0 <= j < i ==>
          percentages[Values[j]] == Percentage(wins[Values[j]], matchLength)
      {
        var mv := Values[i];
        percentages := percentages[mv := (wins[mv] as real) * 100.0 / (matchLength as real)];
      }
      forall m: Move
        ensures percentages[m] == Percentage(wins[m], |results|)
      {
        assert Values[IndexOf(m)] == m;
      }
    }

    /** `dominant_move` */
    function DominantMove(): (r: Option<Move>)
      reads this
      requires Valid()
      ensures r.Some?
      ensures forall m: Move :: percentages[m] <= percentages[r.value]
    {
      PercentagesBounded();
      DominantIsLastMaximum(percentages);
      Dominant(percentages)
    }

    /**
     * Each percentage lies in [0, 100] and together they add up to at
     * most 100, because every win is a win with exactly one move.
     */
    lemma PercentagesBounded()
      requires Valid()
      ensures forall m: Move :: 0.0 <= percentages[m] <= 100.0
      ensures PercentageSum(percentages) <= 100.0
    {
      var n := |results|;
      forall m: Move ensures 0.0 <= percentages[m] <= 100.0 {
        WinAtMostWinCount(wins, m);
        PercentageBounds(wins[m], n);
      }
      PercentageAdds(wins[Rock], wins[Paper], n);
      PercentageAdds(wins[Rock] + wins[Paper], wins[Scissors], n);
      PercentageAdds(wins[Rock] + wins[Paper] + wins[Scissors], wins[Lizard], n);
      PercentageAdds(wins[Rock] + wins[Paper] + wins[Scissors] + wins[Lizard], wins[Spock], n);
      PercentageBounds(WinCount(wins), n);
    }
  }

  /** The position of a move in `Move::VALUES`. */
  function IndexOf(m: Move): (i: nat)
    ensures i < |Values| && Values[i] == m
  {
    match m
    case Rock => 0
    case Paper => 1
    case Scissors => 2
    case Lizard => 3
    case Spock => 4
  }

  /**
   * The `reduce` of `dominant_move` over the moves `s`, from the running
   * dominator `dom` with running percentage `best`: a move replaces the
   * dominator when its percentage is `>=` the running one.
   */
  function DominantFold(pct: map<Move, real>, s: seq<Move>, dom: Option<Move>, best: real): Option<Move>
    requires HasAllMoves(pct)
  {
    if s == [] then dom
    else if pct[s[0]] >= best then DominantFold(pct, s[1..], Some(s[0]), pct[s[0]])
    else DominantFold(pct, s[1..], dom, best)
  }

  /** `dominant_move`: the fold over `Move::VALUES` from `nil` and 0. */
  function Dominant(pct: map<Move, real>): Option<Move>
    requires HasAllMoves(pct)
  {
    DominantFold(pct, Values, None, 0.0)
  }

  /**
   * The fold keeps its starting dominator when no move reaches the
   * running percentage; otherwise it returns the LAST move of maximal
   * percentage.
   */
  lemma {:induction false} DominantFoldSpec(pct: map<Move, real>, s: seq<Move>, dom: Option<Move>, best: real)
    requires HasAllMoves(pct)
    ensures (forall i :: 0 <= i < |s| ==> pct[s[i]] < best) ==> DominantFold(pct, s, dom, best) == dom
    ensures (exists i :: 0 <= i < |s| && pct[s[i]] >= best) ==>
      exists j :: 0 <= j < |s| && DominantFold(pct, s, dom, best) == Some(s[j]) && pct[s[j]] >= best
        && (forall i :: 0 <= i < |s| ==> pct[s[i]] <= pct[s[j]])
        && (forall i :: j < i < |s| ==> pct[s[i]] < pct[s[j]])
    decreases |s|, 1
  {
    if s != [] {
      if pct[s[0]] >= best {
        DominantFoldTakes(pct, s, dom, best);
      } else {
        DominantFoldSkips(pct, s, dom, best);
      }
    }
  }

  /** The fold step at a first move that reaches the running percentage. */
  lemma {:induction false} DominantFoldTakes(pct: map<Move, real>, s: seq<Move>, dom: Option<Move>, best: real)
    requires HasAllMoves(pct) && s != [] && pct[s[0]] >= best
    ensures exists j ::
      0 <= j < |s| && DominantFold(pct, s, dom, best) == Some(s[j]) && pct[s[j]] >= best
      && (forall i :: 0 <= i < |s| ==> pct[s[i]] <= pct[s[j]])
      && (forall i :: j < i < |s| ==> pct[s[i]] < pct[s[j]])
    decreases |s|, 0
  {
    var t := s[1..];
    var r := DominantFold(pct, t, Some(s[0]), pct[s[0]]);
    assert DominantFold(pct, s, dom, best) == r;
    DominantFoldSpec(pct, t, Some(s[0]), pct[s[0]]);
    if exists i :: 0 <= i < |t| && pct[t[i]] >= pct[s[0]] {
      var j' :| 0 <= j' < |t| && r == Some(t[j']) && pct[t[j']] >= pct[s[0]]
        && (forall i :: 0 <= i < |t| ==> pct[t[i]] <= pct[t[j']])
        && (forall i :: j' < i < |t| ==> pct[t[i]] < pct[t[j']]);
      LiftMaximum(pct, s, j');
      assert r == Some(s[j' + 1]);
    } else {
      forall i | 0 < i < |s| ensures pct[s[i]] < pct[s[0]] {
        assert s[i] == t[i - 1];
      }
      assert r == Some(s[0]);
    }
  }

  /** The fold step at a first move below the running percentage. */
  lemma {:induction false} DominantFoldSkips(pct: map<Move, real>, s: seq<Move>, dom: Option<Move>, best: real)
    requires HasAllMoves(pct) && s != [] && pct[s[0]] < best
    ensures (forall i :: 0 <= i < |s| ==> pct[s[i]] < best) ==> DominantFold(pct, s, dom, best) == dom
    ensures (exists i :: 0 <= i < |s| && pct[s[i]] >= best) ==>
      exists j :: 0 <= j < |s| && DominantFold(pct, s, dom, best) == Some(s[j]) && pct[s[j]] >= best
        && (forall i :: 0 <= i < |s| ==> pct[s[i]] <= pct[s[j]])
        && (forall i :: j < i < |s| ==> pct[s[i]] < pct[s[j]])
    decreases |s|, 0
  {
    var t := s[1..];
    var r := DominantFold(pct, t, dom, best);
    assert DominantFold(pct, s, dom, best) == r;
    DominantFoldSpec(pct, t, dom, best);
    if exists i :: 0 <= i < |s| && pct[s[i]] >= best {
      var i0 :| 0 <= i0 < |s| && pct[s[i0]] >= best;
      assert i0 > 0 && t[i0 - 1] == s[i0];
      var j' :| 0 <= j' < |t| && r == Some(t[j']) && pct[t[j']] >= best
        && (forall i :: 0 <= i < |t| ==> pct[t[i]] <= pct[t[j']])
        && (forall i :: j' < i < |t| ==> pct[t[i]] < pct[t[j']]);
      LiftMaximum(pct, s, j');
      assert r == Some(s[j' + 1]);
    } else {
      forall i | 0 <= i < |t| ensures pct[t[i]] < best {
        assert t[i] == s[i + 1];
      }
    }
  }

  /** A last maximum of `s[1..]` at `j` that is at least `s[0]` is a last maximum of `s` at `j + 1`. */
  lemma LiftMaximum(pct: map<Move, real>, s: seq<Move>, j: nat)
    requires HasAllMoves(pct) && j + 1 < |s|
    requires pct[s[0]] <= pct[s[j + 1]]
    requires forall i :: 0 <= i < |s[1..]| ==> pct[s[1..][i]] <= pct[s[1..][j]]
    requires forall i :: j < i < |s[1..]| ==> pct[s[1..][i]] < pct[s[1..][j]]
    ensures s[1..][j] == s[j + 1]
    ensures forall i :: 0 <= i < |s| ==> pct[s[i]] <= pct[s[j + 1]]
    ensures forall i :: j + 1 < i < |s| ==> pct[s[i]] < pct[s[j + 1]]
  {
    var t := s[1..];
    forall i | 0 <= i < |s| ensures pct[s[i]] <= pct[s[j + 1]] {
      if i > 0 { assert s[i] == t[i - 1]; }
    }
    forall i | j + 1 < i < |s| ensures pct[s[i]] < pct[s[j + 1]] {
      assert s[i] == t[i - 1];
    }
  }

  /**
   * With no negative percentage, `dominant_move` never returns nil: it
   * returns a move of maximal percentage, and every move after it in
   * `Move::VALUES` has a strictly smaller one, so ties go to the last.
   */
  lemma DominantIsLastMaximum(pct: map<Move, real>)
    requires HasAllMoves(pct)
    requires forall m: Move :: pct[m] >= 0.0
    ensures Dominant(pct).Some?
    ensures forall m: Move :: pct[m] <= pct[Dominant(pct).value]
    ensures forall i :: IndexOf(Dominant(pct).value) < i < |Values| ==> pct[Values[i]] < pct[Dominant(pct).value]
  {
    assert pct[Values[0]] >= 0.0;
    DominantFoldSpec(pct, Values, None, 0.0);
    var j :| 0 <= j < |Values| && Dominant(pct) == Some(Values[j])
      && (forall i :: 0 <= i < |Values| ==> pct[Values[i]] <= pct[Values[j]])
      && (forall i :: j < i < |Values| ==> pct[Values[i]] < pct[Values[j]]);
    forall m: Move ensures pct[m] <= pct[Values[j]] {
      assert Values[IndexOf(m)] == m;
    }
    assert IndexOf(Values[j]) == j;
  }

  /** Before any win, every percentage is 0 and the last move, Spock, dominates. */
  lemma DominantWithoutWinsIsSpock(pct: map<Move, real>)
    requires HasAllMoves(pct)
    requires forall m: Move :: pct[m] == 0.0
    ensures Dominant(pct) == Some(Spock)
  {
    DominantIsLastMaximum(pct);
    var d := Dominant(pct).value;
    assert Values[4] == Spock;
  }
}
