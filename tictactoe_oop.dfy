/**
 * The class-based Tic-Tac-Toe game (tic_tac_toe-oop.rb): a board of nine
 * squares keyed 1 to 9, the eight winning lines, a computer that wins,
 * blocks, takes the centre or takes any free square, and a game that
 * alternates the two players and keeps score.
 */
module TicTacToeOop {
  import opened Wrappers
  import opened TicTacToeBoard

  /** `Square::INITIAL_MARKER`: the marker of a square nobody has taken. */
  const InitialMarker: char := ' '
  /** `TTTGame::COMPUTER_MARKER`, the letter O with stroke. */
  const ComputerMarker: char := '\U{00D8}'
  /** `TTTGame::MAX_WINS`. */
  const MaxWins: nat := 3
  const Center: int := 5

  /** `three_identical_markers?`: all three squares marked, with one marker among them. */
  predicate ThreeIdentical(ms: seq<char>)
    requires |ms| == 3
  {
    ms[0] != InitialMarker && ms[0] == ms[1] && ms[1] == ms[2]
  }

  /** Whether winning line `i` holds three of one marker. */
  predicate Won(squares: map<int, char>, i: int)
    requires Complete(squares) && 0 <= i < |WinningLines|
  {
    LinesAreOnTheBoard(i);
    ThreeIdentical(LineMarkers(squares, WinningLines[i]))
  }

  /** The marker of the first winning line, from line `i` on. */
  function WinnerFrom(squares: map<int, char>, i: nat): Option<char>
    requires Complete(squares) && i <= |WinningLines|
    decreases |WinningLines| - i
  {
    if i == |WinningLines| then None
    else if (LinesAreOnTheBoard(i); Won(squares, i)) then Some(squares[WinningLines[i].a])
    else WinnerFrom(squares, i + 1)
  }

  /** The marker `winning_marker` reports, if any. */
  function Winner(squares: map<int, char>): Option<char>
    requires Complete(squares)
  {
    WinnerFrom(squares, 0)
  }

  /** There is no winner exactly when no line is complete. */
  lemma {:induction false} WinnerFromNone(squares: map<int, char>, i: nat)
    requires Complete(squares) && i <= |WinningLines|
    ensures WinnerFrom(squares, i).None? <==>
      forall j :: i <= j < |WinningLines| ==> !Won(squares, j)
    decreases |WinningLines| - i
  {
    if i < |WinningLines| && !Won(squares, i) {
      WinnerFromNone(squares, i + 1);
    }
  }

  /**
   * A winner is the marker filling the first complete line, never the
   * blank marker.
   */
  lemma {:induction false} WinnerFromSome(squares: map<int, char>, i: nat)
    requires Complete(squares) && i <= |WinningLines| && WinnerFrom(squares, i).Some?
    ensures WinnerFrom(squares, i).value != InitialMarker
    ensures exists j ::
      i <= j < |WinningLines| && Won(squares, j) &&
      squares[WinningLines[j].a] == WinnerFrom(squares, i).value &&
      squares[WinningLines[j].b] == WinnerFrom(squares, i).value &&
      squares[WinningLines[j].c] == WinnerFrom(squares, i).value &&
      forall l :: i <= l < j ==> !Won(squares, l)
    decreases |WinningLines| - i
  {
    if Won(squares, i) {
      LinesAreOnTheBoard(i);
      assert WinnerFrom(squares, i) == Some(squares[WinningLines[i].a]);
    } else {
      var w := WinnerFrom(squares, i).value;
      assert WinnerFrom(squares, i + 1) == Some(w);
      WinnerFromSome(squares, i + 1);
      var j :| i + 1 <= j < |WinningLines| && Won(squares, j) &&
        squares[WinningLines[j].a] == w && squares[WinningLines[j].b] == w &&
        squares[WinningLines[j].c] == w && forall l :: i + 1 <= l < j ==> !Won(squares, l);
      assert forall l :: i <= l < j ==> !Won(squares, l);
    }
  }

  /** A line holding `want` of `marker` and exactly one unmarked square. */
  predicate Qualifies(squares: map<int, char>, i: int, marker: char, want: nat)
    requires Complete(squares) && 0 <= i < |WinningLines|
  {
    LinesAreOnTheBoard(i);
    var ms := LineMarkers(squares, WinningLines[i]);
    Count(ms, marker) == want && Count(ms, InitialMarker) == 1
  }

  /** `line.select { unmarked }.first`: the first unmarked key of a line that has one. */
  function FirstUnmarked(squares: map<int, char>, line: Line): (k: int)
    requires Complete(squares) && OnBoard(line)
    requires squares[line.a] == InitialMarker || squares[line.b] == InitialMarker || squares[line.c] == InitialMarker
    ensures OnLine(k, line) && squares[k] == InitialMarker
    ensures k != line.a ==> squares[line.a] != InitialMarker
    ensures k == line.c ==> squares[line.b] != InitialMarker
  {
    if squares[line.a] == InitialMarker then line.a
    else if squares[line.b] == InitialMarker then line.b
    else line.c
  }

  /** The free square of the first qualifying line, from line `i` on. */
  function FindFrom(squares: map<int, char>, i: nat, marker: char, want: nat): Option<int>
    requires Complete(squares) && i <= |WinningLines|
    decreases |WinningLines| - i
  {
    if i == |WinningLines| then None
    else if (LinesAreOnTheBoard(i); Qualifies(squares, i, marker, want)) then Some(FirstUnmarked(squares, WinningLines[i]))
    else FindFrom(squares, i + 1, marker, want)
  }

  /** `FindFrom` finds nothing exactly when no line from `i` on qualifies. */
  lemma {:induction false} FindFromNone(squares: map<int, char>, i: nat, marker: char, want: nat)
    requires Complete(squares) && i <= |WinningLines|
    ensures FindFrom(squares, i, marker, want).None? <==>
      forall j :: i <= j < |WinningLines| ==> !Qualifies(squares, j, marker, want)
    decreases |WinningLines| - i
  {
    if i < |WinningLines| && !Qualifies(squares, i, marker, want) {
      FindFromNone(squares, i + 1, marker, want);
    }
  }

  /** A found square lies on the first qualifying line. */
  lemma {:induction false} FindFromSome(squares: map<int, char>, i: nat, marker: char, want: nat)
    requires Complete(squares) && i <= |WinningLines|
    requires FindFrom(squares, i, marker, want).Some?
    ensures exists j ::
      i <= j < |WinningLines| && Qualifies(squares, j, marker, want) &&
      OnLine(FindFrom(squares, i, marker, want).value, WinningLines[j]) &&
      forall l :: i <= l < j ==> !Qualifies(squares, l, marker, want)
    decreases |WinningLines| - i
  {
    if Qualifies(squares, i, marker, want) {
      LinesAreOnTheBoard(i);
      assert FindFrom(squares, i, marker, want) == Some(FirstUnmarked(squares, WinningLines[i]));
    } else {
      var k := FindFrom(squares, i, marker, want).value;
      assert FindFrom(squares, i + 1, marker, want) == Some(k);
      FindFromSome(squares, i + 1, marker, want);
      var j :| i + 1 <= j < |WinningLines| && Qualifies(squares, j, marker, want) &&
        OnLine(k, WinningLines[j]) && forall l :: i + 1 <= l < j ==> !Qualifies(squares, l, marker, want);
      assert forall l :: i <= l < j ==> !Qualifies(squares, l, marker, want);
    }
  }

  /** Every square `FindFrom` returns is on the board and unmarked. */
  lemma {:induction false} FoundSquareIsFree(squares: map<int, char>, i: nat, marker: char, want: nat)
    requires Complete(squares) && i <= |WinningLines|
    requires FindFrom(squares, i, marker, want).Some?
    ensures IsKey(FindFrom(squares, i, marker, want).value)
    ensures squares[FindFrom(squares, i, marker, want).value] == InitialMarker
    decreases |WinningLines| - i
  {
    if !Qualifies(squares, i, marker, want) {
      FoundSquareIsFree(squares, i + 1, marker, want);
    } else {
      LinesAreOnTheBoard(i);
    }
  }

  /**
   * In a qualifying line the two squares other than the free one `k`
   * are marked, and with no blank to count they hold `want` of `marker`.
   */
  lemma QualifyingLine(squares: map<int, char>, i: int, marker: char, want: nat, k: int)
    requires Complete(squares) && 0 <= i < |WinningLines| && marker != InitialMarker
    requires Qualifies(squares, i, marker, want)
    requires OnLine(k, WinningLines[i]) && squares[k] == InitialMarker
    ensures OnBoard(WinningLines[i])
    ensures var line := WinningLines[i];
      (if line.a != k && squares[line.a] == marker then 1 else 0) +
      (if line.b != k && squares[line.b] == marker then 1 else 0) +
      (if line.c != k && squares[line.c] == marker then 1 else 0) == want
    ensures var line := WinningLines[i];
      (line.a != k ==> squares[line.a] != InitialMarker) &&
      (line.b != k ==> squares[line.b] != InitialMarker) &&
      (line.c != k ==> squares[line.c] != InitialMarker)
  {
    LinesAreOnTheBoard(i);
  }

  /**
   * `winning_opportunity?`: marking the square `find_winning_square`
   * returns completes a line of the marker.
   */
  lemma WinningSquareCompletesALine(squares: map<int, char>, marker: char)
    requires Complete(squares) && marker != InitialMarker
    requires FindFrom(squares, 0, marker, 2).Some?
    ensures var k := FindFrom(squares, 0, marker, 2).value;
      IsKey(k) && squares[k] == InitialMarker &&
      exists j :: 0 <= j < |WinningLines| && OnLine(k, WinningLines[j]) && Won(squares[k := marker], j) &&
        squares[k := marker][WinningLines[j].a] == marker
  {
    var j := FirstQualifying(squares, 0, marker, 2);
    var k := FindFrom(squares, 0, marker, 2).value;
    QualifyingLine(squares, j, marker, 2, k);
    LineFilledBy(squares[k := marker], j, marker);
  }

  /**
   * `under_risk?`: when only `marker` and `other` are on the board, the
   * square `find_at_risk_square(marker)` returns is one where `other`
   * would complete a line, so marking it blocks `other`.
   */
  lemma AtRiskSquareBlocks(squares: map<int, char>, marker: char, other: char)
    requires Complete(squares) && marker != InitialMarker && other != InitialMarker && marker != other
    requires forall k :: k in squares ==> squares[k] in {InitialMarker, marker, other}
    requires FindFrom(squares, 0, marker, 0).Some?
    ensures var k := FindFrom(squares, 0, marker, 0).value;
      IsKey(k) && squares[k] == InitialMarker &&
      exists j :: 0 <= j < |WinningLines| && OnLine(k, WinningLines[j]) && Won(squares[k := other], j) &&
        squares[k := other][WinningLines[j].a] == other
  {
    var j := FirstQualifying(squares, 0, marker, 0);
    var k := FindFrom(squares, 0, marker, 0).value;
    QualifyingLine(squares, j, marker, 0, k);
    LineFilledBy(squares[k := other], j, other);
  }

  /** The index of the line `FindFrom` takes its square from. */
  function FirstQualifying(squares: map<int, char>, i: nat, marker: char, want: nat): (j: nat)
    requires Complete(squares) && i <= |WinningLines| && FindFrom(squares, i, marker, want).Some?
    ensures i <= j < |WinningLines| && Qualifies(squares, j, marker, want) && OnBoard(WinningLines[j])
    ensures FindFrom(squares, i, marker, want).value == FirstUnmarked(squares, WinningLines[j])
    decreases |WinningLines| - i
  {
    LinesAreOnTheBoard(i);
    if Qualifies(squares, i, marker, want) then i else FirstQualifying(squares, i + 1, marker, want)
  }

  /** A line whose three squares hold `m` is won, by `m`. */
  lemma LineFilledBy(squares: map<int, char>, j: int, m: char)
    requires Complete(squares) && 0 <= j < |WinningLines| && m != InitialMarker
    requires OnBoard(WinningLines[j])
    requires squares[WinningLines[j].a] == m && squares[WinningLines[j].b] == m && squares[WinningLines[j].c] == m
    ensures Won(squares, j) && squares[WinningLines[j].a] == m
  {
  }

  /** `Board`: nine squares, each holding a marker. */
  class Board {
    var squares: map<int, char>

    ghost predicate Valid()
      reads this
    {
      Complete(squares)
    }

    constructor()
      ensures Valid() && forall k :: IsKey(k) ==> squares[k] == InitialMarker
    {
      squares := map[];
      new;
      Reset();
    }

    /** `Board#reset`: a new unmarked square under every key from 1 to 9. */
    method Reset()
      modifies this
      ensures Valid() && forall k :: IsKey(k) ==> squares[k] == InitialMarker
      ensures UnmarkedKeys() == [1, 2, 3, 4, 5, 6, 7, 8, 9] && !Full()
    {
      var cleared: map<int, char> := map[];
      for k := 1 to 10
        invariant forall x :: x in cleared <==> 1 <= x < k
        invariant forall x :: x in cleared ==> cleared[x] == InitialMarker
      {
        cleared := cleared[k := InitialMarker];
      }
      squares := cleared;
      ResetKeys(squares, InitialMarker, 1);
      OneToNine(KeysHolding(squares, InitialMarker, 1));
    }

    /** `Board#[]=`: mark one square, leaving the others as they were. */
    method Set(key: int, marker: char)
      requires Valid() && IsKey(key)
      modifies this
      ensures Valid() && squares == old(squares)[key := marker]
      ensures forall k :: IsKey(k) && k != key ==> squares[k] == old(squares)[k]
    {
      squares := squares[key := marker];
    }

    /** `Board#unmarked_keys`: the keys of unmarked squares, in ascending order. */
    function UnmarkedKeys(): (keys: seq<int>)
      requires Valid()
      reads this
      ensures forall k :: k in keys <==> IsKey(k) && squares[k] == InitialMarker
      ensures forall a, b :: 0 <= a < b < |keys| ==> keys[a] < keys[b]
    {
      KeysHolding(squares, InitialMarker, 1)
    }

    /** `Board#full?`. */
    predicate Full()
      requires Valid()
      reads this
    {
      |UnmarkedKeys()| == 0
    }

    /** A board is full exactly when no square is unmarked. */
    lemma FullMeansAllMarked()
      requires Valid()
      ensures Full() <==> forall k :: IsKey(k) ==> squares[k] != InitialMarker
    {
      if !Full() {
        assert UnmarkedKeys()[0] in UnmarkedKeys();
      }
    }

    /** `Board#center_unmarked?`. */
    predicate CenterUnmarked()
      requires Valid()
      reads this
    {
      squares[Center] == InitialMarker
    }

    /** `Board#winning_marker`: scan the lines in order and stop at the first complete one. */
    method WinningMarker() returns (marker: Option<char>)
      requires Valid()
      ensures marker == Winner(squares)
    {
      for i := 0 to |WinningLines|
        invariant WinnerFrom(squares, i) == Winner(squares)
      {
        LinesAreOnTheBoard(i);
        var ms := LineMarkers(squares, WinningLines[i]);
        if ThreeIdentical(ms) {
          return Some(ms[0]);
        }
      }
      return None;
    }

    /** `Board#someone_won?`. */
    method SomeoneWon() returns (won: bool)
      requires Valid()
      ensures won <==> Winner(squares).Some?
    {
      var marker := WinningMarker();
      won := marker.Some?;
    }

    /** The scan shared by the two finders: the first line with `want` of `marker` and one free square. */
    method FindSquare(marker: char, want: nat) returns (key: Option<int>)
      requires Valid()
      ensures key == FindFrom(squares, 0, marker, want)
    {
      for i := 0 to |WinningLines|
        invariant FindFrom(squares, i, marker, want) == FindFrom(squares, 0, marker, want)
      {
        LinesAreOnTheBoard(i);
        var line := WinningLines[i];
        var ms := LineMarkers(squares, line);
        if Count(ms, marker) == want && Count(ms, InitialMarker) == 1 {
          if squares[line.a] == InitialMarker {
            return Some(line.a);
          } else if squares[line.b] == InitialMarker {
            return Some(line.b);
          } else {
            return Some(line.c);
          }
        }
      }
      return None;
    }

    /** `Board#find_winning_square`: the free square of the first line with two of `marker`. */
    method FindWinningSquare(marker: char) returns (key: Option<int>)
      requires Valid()
      ensures key == FindFrom(squares, 0, marker, 2)
    {
      key := FindSquare(marker, 2);
    }

    /** `Board#find_at_risk_square`: the free square of the first line with none of `marker`. */
    method FindAtRiskSquare(marker: char) returns (key: Option<int>)
      requires Valid()
      ensures key == FindFrom(squares, 0, marker, 0)
    {
      key := FindSquare(marker, 0);
    }

    /** `Board#winning_opportunity?`: some line has two of `marker` and a free square. */
    method WinningOpportunity(marker: char) returns (b: bool)
      requires Valid()
      ensures b <==> exists i :: 0 <= i < |WinningLines| && Qualifies(squares, i, marker, 2)
    {
      var key := FindWinningSquare(marker);
      FindFromNone(squares, 0, marker, 2);
      b := key.Some?;
    }

    /** `Board#under_risk?`: some line has none of `marker` and a single free square. */
    method UnderRisk(marker: char) returns (b: bool)
      requires Valid()
      ensures b <==> exists i :: 0 <= i < |WinningLines| && Qualifies(squares, i, marker, 0)
    {
      var key := FindAtRiskSquare(marker);
      FindFromNone(squares, 0, marker, 0);
      b := key.Some?;
    }
  }

  /** A `Human` or a `Computer`: a marker and a score. */
  class Player {
    const marker: char
    var score: nat

    constructor(marker: char)
      ensures this.marker == marker && score == 0
    {
      this.marker := marker;
      score := 0;
    }

    /** `Human#move`, given the validated square the human chose. */
    method HumanMove(board: Board, square: int)
      requires board.Valid() && square in board.UnmarkedKeys()
      modifies board
      ensures board.Valid() && board.squares == old(board.squares)[square := marker]
    {
      board.Set(square, marker);
    }

    /**
     * `Computer#move`: complete a line if possible, else block one, else
     * take the centre, else take any free square.  It marks exactly one
     * square that was free.  The game only asks on a board that is not full.
     */
    method ComputerMove(board: Board) returns (square: int)
      requires board.Valid() && !board.Full() && marker != InitialMarker
      modifies board
      ensures board.Valid()
      ensures IsKey(square) && old(board.squares)[square] == InitialMarker
      ensures board.squares == old(board.squares)[square := marker]
      ensures var win := FindFrom(old(board.squares), 0, marker, 2);
        var risk := FindFrom(old(board.squares), 0, marker, 0);
        if win.Some? then square == win.value
        else if risk.Some? then square == risk.value
        else if old(board.squares)[Center] == InitialMarker then square == Center
        else true
    {
      var win := board.FindWinningSquare(marker);
      var risk := board.FindAtRiskSquare(marker);
      if win.Some? {
        FoundSquareIsFree(board.squares, 0, marker, 2);
        square := win.value;
      } else if risk.Some? {
        FoundSquareIsFree(board.squares, 0, marker, 0);
        square := risk.value;
      } else if board.CenterUnmarked() {
        square := Center;
      } else {
        var free := board.UnmarkedKeys();
        var i :| 0 <= i < |free|;
        square := free[i];
      }
      board.Set(square, marker);
    }
  }

  /** `TTTGame`: the board, the two players and whose turn it is. */
  class TTTGame {
    const board: Board
    const human: Player
    const computer: Player
    const firstMover: char
    var currentMarker: char

    ghost predicate Valid()
      reads this, board, human, computer
    {
      board.Valid() && human != computer &&
      human.marker != computer.marker &&
      human.marker != InitialMarker && computer.marker != InitialMarker &&
      firstMover in {human.marker, computer.marker} &&
      currentMarker in {human.marker, computer.marker}
    }

    /** A new game; the human, with a validated marker, chose whether to move first. */
    constructor(humanMarker: char, humanFirst: bool)
      requires humanMarker != InitialMarker && humanMarker != ComputerMarker
      ensures Valid() && fresh(board) && fresh(human) && fresh(computer)
      ensures human.marker == humanMarker && computer.marker == ComputerMarker
      ensures human.score == 0 && computer.score == 0
      ensures currentMarker == firstMover
      ensures firstMover == (if humanFirst then humanMarker else ComputerMarker)
    {
      board := new Board();
      human := new Player(humanMarker);
      computer := new Player(ComputerMarker);
      firstMover := if humanFirst then humanMarker else ComputerMarker;
      currentMarker := if humanFirst then humanMarker else ComputerMarker;
    }

    /** `TTTGame#human_turn?`. */
    predicate HumanTurn()
      reads this, human
    {
      currentMarker == human.marker
    }

    /** `TTTGame#update_score`: a point to the player whose marker won, none on a tie. */
    method UpdateScore()
      requires Valid()
      modifies human`score, computer`score
      ensures human.score == old(human.score) + (if Winner(board.squares) == Some(human.marker) then 1 else 0)
      ensures computer.score == old(computer.score) + (if Winner(board.squares) == Some(computer.marker) then 1 else 0)
    {
      var winner := board.WinningMarker();
      if winner == Some(human.marker) {
        human.score := human.score + 1;
      } else if winner == Some(computer.marker) {
        computer.score := computer.score + 1;
      }
    }

    /** `TTTGame#winning_score_reached?`. */
    predicate WinningScoreReached()
      reads this, human, computer
    {
      human.score == MaxWins || computer.score == MaxWins
    }

    /**
     * `TTTGame#current_player_moves`: the player whose turn it is marks a
     * square, and the turn passes to the other.  `square` is the human's
     * validated choice, used only on the human's turn.
     */
    method CurrentPlayerMoves(square: int)
      requires Valid() && !board.Full()
      requires HumanTurn() ==> square in board.UnmarkedKeys()
      modifies board, this`currentMarker
      ensures Valid()
      ensures old(HumanTurn()) ==>
        board.squares == old(board.squares)[square := human.marker] && currentMarker == computer.marker
      ensures !old(HumanTurn()) ==>
        currentMarker == human.marker &&
        exists k :: IsKey(k) && old(board.squares)[k] == InitialMarker &&
          board.squares == old(board.squares)[k := computer.marker]
      ensures |board.UnmarkedKeys()| == |old(board.UnmarkedKeys())| - 1
      ensures currentMarker == NextMarker(old(currentMarker), human.marker, computer.marker)
    {
      if HumanTurn() {
        human.HumanMove(board, square);
        currentMarker := computer.marker;
        OneFewerHolding(old(board.squares), square, InitialMarker, human.marker);
      } else {
        var k := computer.ComputerMove(board);
        currentMarker := human.marker;
        OneFewerHolding(old(board.squares), k, InitialMarker, computer.marker);
      }
    }

    /** `TTTGame#reset`: a cleared board, and the first mover's turn again. */
    method Reset()
      requires Valid()
      modifies board, this`currentMarker
      ensures Valid() && currentMarker == firstMover
      ensures forall k :: IsKey(k) ==> board.squares[k] == InitialMarker
    {
      board.Reset();
      currentMarker := firstMover;
    }
  }

  /** The marker whose turn follows `current` (`current_player_moves`). */
  function NextMarker(current: char, human: char, computer: char): char {
    if current == human then computer else human
  }

  /** The marker whose turn it is after `n` moves of a game. */
  function TurnAfter(first: char, human: char, computer: char, n: nat): (m: char)
    requires first == human || first == computer
    ensures m == human || m == computer
  {
    if n == 0 then first else NextMarker(TurnAfter(first, human, computer, n - 1), human, computer)
  }

  /**
   * With two different markers the players alternate: after an even
   * number of moves it is the first mover's turn, otherwise the other's.
   */
  lemma {:induction false} TurnsAlternate(first: char, human: char, computer: char, n: nat)
    requires human != computer && (first == human || first == computer)
    ensures TurnAfter(first, human, computer, n) ==
      if n % 2 == 0 then first else NextMarker(first, human, computer)
  {
    if n > 0 {
      TurnsAlternate(first, human, computer, n - 1);
    }
  }
}
