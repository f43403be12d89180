/**
 * The procedural Tic-Tac-Toe game (tic_tac_toe-procedural.rb): the board
 * is a hash from keys 1 to 9 to marker strings, the computer plays
 * win, block, centre, any free square, and a `score` hash counts wins
 * for 'Player' and 'Computer'.  The winning lines and the generic board
 * helpers are the ones of the class-based game.
 */
module TicTacToeProcedural {
  import opened Wrappers
  import B = TicTacToeBoard

  const InitialMarker: string := " "
  const PlayerMarker: string := "X"
  /**
   * `COMPUTER_MARKER`: the letter O with stroke as it reads when its
   * UTF-8 bytes are taken for Windows-1252 text, two characters long.
   */
  const ComputerMarker: string := "\U{00C3}\U{02DC}"
  const PlayerName: string := "Player"
  const ComputerName: string := "Computer"
  /** `five_wins_reached?`: the match ends at five wins. */
  const WinsNeeded: nat := 5
  const Center: int := 5

  /** A board of nine squares, each holding one of the three markers. */
  ghost predicate WellMarked(brd: map<int, string>) {
    B.Complete(brd) &&
    forall k :: k in brd ==> brd[k] == InitialMarker || brd[k] == PlayerMarker || brd[k] == ComputerMarker
  }

  lemma MarkersDiffer()
    ensures InitialMarker != PlayerMarker && InitialMarker != ComputerMarker && PlayerMarker != ComputerMarker
  {
    assert |InitialMarker| == 1 && |ComputerMarker| == 2;
  }

  /** `initialize_board`: the keys 1 to 9, each holding a blank. */
  method InitializeBoard() returns (brd: map<int, string>)
    ensures WellMarked(brd) && forall k :: B.IsKey(k) ==> brd[k] == InitialMarker
    ensures EmptySquares(brd) == [1, 2, 3, 4, 5, 6, 7, 8, 9] && !BoardFull(brd)
  {
    brd := map[];
    for num := 1 to 10
      invariant forall x :: x in brd <==> 1 <= x < num
      invariant forall x :: x in brd ==> brd[x] == InitialMarker
    {
      brd := brd[num := InitialMarker];
    }
    B.ResetKeys(brd, InitialMarker, 1);
    B.OneToNine(EmptySquares(brd));
  }

  /** `empty_squares`: the keys holding a blank, in ascending order. */
  function EmptySquares(brd: map<int, string>): (keys: seq<int>)
    requires B.Complete(brd)
    ensures forall k :: k in keys <==> B.IsKey(k) && brd[k] == InitialMarker
    ensures forall a, b :: 0 <= a < b < |keys| ==> keys[a] < keys[b]
  {
    B.KeysHolding(brd, InitialMarker, 1)
  }

  /** `board_full?`. */
  predicate BoardFull(brd: map<int, string>)
    requires B.Complete(brd)
  {
    |EmptySquares(brd)| == 0
  }

  /** A board is full exactly when no square holds a blank. */
  lemma BoardFullMeansNoBlank(brd: map<int, string>)
    requires B.Complete(brd)
    ensures BoardFull(brd) <==> forall k :: B.IsKey(k) ==> brd[k] != InitialMarker
  {
    if !BoardFull(brd) {
      assert EmptySquares(brd)[0] in EmptySquares(brd);
    }
  }

  /** `brd.values_at(*line).count(marker)` for winning line `i`. */
  function LineCount(brd: map<int, string>, i: int, marker: string): (n: nat)
    requires B.Complete(brd) && 0 <= i < |B.WinningLines|
    ensures n <= 3
  {
    B.LinesAreOnTheBoard(i);
    B.Count(B.LineMarkers(brd, B.WinningLines[i]), marker)
  }

  /** Winning line `i` holds three of `marker`. */
  predicate ThreeOf(brd: map<int, string>, i: int, marker: string)
    requires B.Complete(brd) && 0 <= i < |B.WinningLines|
  {
    LineCount(brd, i, marker) == 3
  }

  /** Three of a marker means every square of the line holds it. */
  lemma ThreeOfMeansFilled(brd: map<int, string>, i: int, marker: string)
    requires B.Complete(brd) && 0 <= i < |B.WinningLines|
    ensures B.OnBoard(B.WinningLines[i])
    ensures ThreeOf(brd, i, marker) <==>
      brd[B.WinningLines[i].a] == marker && brd[B.WinningLines[i].b] == marker && brd[B.WinningLines[i].c] == marker
  {
    B.LinesAreOnTheBoard(i);
  }

  /** The side owning the first line of three, from line `i` on, checking the player first. */
  function DetectWinnerFrom(brd: map<int, string>, i: nat): Option<string>
    requires B.Complete(brd) && i <= |B.WinningLines|
    decreases |B.WinningLines| - i
  {
    if i == |B.WinningLines| then None
    else if ThreeOf(brd, i, PlayerMarker) then Some(PlayerName)
    else if ThreeOf(brd, i, ComputerMarker) then Some(ComputerName)
    else DetectWinnerFrom(brd, i + 1)
  }

  /** `detect_winner`. */
  function DetectWinner(brd: map<int, string>): Option<string>
    requires B.Complete(brd)
  {
    DetectWinnerFrom(brd, 0)
  }

  /** Neither side holds line `j`. */
  predicate Open(brd: map<int, string>, j: int)
    requires B.Complete(brd) && 0 <= j < |B.WinningLines|
  {
    !ThreeOf(brd, j, PlayerMarker) && !ThreeOf(brd, j, ComputerMarker)
  }

  /** `detect_winner` gives nil exactly when no line holds three of either marker. */
  lemma {:induction false} DetectWinnerNone(brd: map<int, string>, i: nat)
    requires B.Complete(brd) && i <= |B.WinningLines|
    ensures DetectWinnerFrom(brd, i).None? <==> forall j :: i <= j < |B.WinningLines| ==> Open(brd, j)
    decreases |B.WinningLines| - i
  {
    if i < |B.WinningLines| && Open(brd, i) {
      DetectWinnerNone(brd, i + 1);
    }
  }

  /**
   * `detect_winner` names 'Player' or 'Computer', the side holding the
   * first line of three, checking the player's marker first on each line.
   */
  lemma {:induction false} DetectWinnerSome(brd: map<int, string>, i: nat)
    requires B.Complete(brd) && i <= |B.WinningLines|
    ensures DetectWinnerFrom(brd, i).Some? ==>
      DetectWinnerFrom(brd, i) == Some(PlayerName) || DetectWinnerFrom(brd, i) == Some(ComputerName)
    ensures DetectWinnerFrom(brd, i) == Some(PlayerName) ==>
      exists j :: i <= j < |B.WinningLines| && ThreeOf(brd, j, PlayerMarker) &&
        forall l :: i <= l < j ==> Open(brd, l)
    ensures DetectWinnerFrom(brd, i) == Some(ComputerName) ==>
      exists j :: i <= j < |B.WinningLines| && ThreeOf(brd, j, ComputerMarker) && !ThreeOf(brd, j, PlayerMarker) &&
        forall l :: i <= l < j ==> Open(brd, l)
    decreases |B.WinningLines| - i
  {
    if i < |B.WinningLines| && Open(brd, i) {
      DetectWinnerSome(brd, i + 1);
    }
  }

  /** `someone_won?`. */
  predicate SomeoneWon(brd: map<int, string>)
    requires B.Complete(brd)
  {
    DetectWinner(brd).Some?
  }

  /** A line with two of `mine` and none of `theirs`. */
  predicate Threatens(brd: map<int, string>, i: int, mine: string, theirs: string)
    requires B.Complete(brd) && 0 <= i < |B.WinningLines|
  {
    LineCount(brd, i, mine) == 2 && LineCount(brd, i, theirs) == 0
  }

  /** `line.select { |ln| brd[ln] != mine }.first`. */
  function FirstNotHolding(brd: map<int, string>, line: B.Line, mine: string): (k: int)
    requires B.Complete(brd) && B.OnBoard(line)
    ensures B.OnLine(k, line)
  {
    if brd[line.a] != mine then line.a
    else if brd[line.b] != mine then line.b
    else line.c
  }

  /** The square left open in the first line `Threatens` picks out, from line `i` on. */
  function FindFrom(brd: map<int, string>, i: nat, mine: string, theirs: string): Option<int>
    requires B.Complete(brd) && i <= |B.WinningLines|
    decreases |B.WinningLines| - i
  {
    if i == |B.WinningLines| then None
    else if Threatens(brd, i, mine, theirs) then
      B.LinesAreOnTheBoard(i);
      Some(FirstNotHolding(brd, B.WinningLines[i], mine))
    else FindFrom(brd, i + 1, mine, theirs)
  }

  /** `find_at_risk_square`: where the player threatens to complete a line. */
  function FindAtRiskSquare(brd: map<int, string>): Option<int>
    requires B.Complete(brd)
  {
    FindFrom(brd, 0, PlayerMarker, ComputerMarker)
  }

  /** `find_winning_opportunity`: where the computer can complete a line. */
  function FindWinningOpportunity(brd: map<int, string>): Option<int>
    requires B.Complete(brd)
  {
    FindFrom(brd, 0, ComputerMarker, PlayerMarker)
  }

  /**
   * A found square lies on the first threatening line, and nil means no
   * line threatens.
   */
  lemma {:induction false} FindFromSpec(brd: map<int, string>, i: nat, mine: string, theirs: string)
    requires B.Complete(brd) && i <= |B.WinningLines|
    ensures FindFrom(brd, i, mine, theirs).None? <==>
      forall j :: i <= j < |B.WinningLines| ==> !Threatens(brd, j, mine, theirs)
    ensures FindFrom(brd, i, mine, theirs).Some? ==>
      exists j :: i <= j < |B.WinningLines| && Threatens(brd, j, mine, theirs) &&
        B.OnLine(FindFrom(brd, i, mine, theirs).value, B.WinningLines[j]) &&
        forall l :: i <= l < j ==> !Threatens(brd, l, mine, theirs)
    decreases |B.WinningLines| - i
  {
    if i == |B.WinningLines| {
    } else if Threatens(brd, i, mine, theirs) {
      B.LinesAreOnTheBoard(i);
      assert FindFrom(brd, i, mine, theirs) == Some(FirstNotHolding(brd, B.WinningLines[i], mine));
    } else {
      assert FindFrom(brd, i, mine, theirs) == FindFrom(brd, i + 1, mine, theirs);
      FindFromSpec(brd, i + 1, mine, theirs);
      if FindFrom(brd, i, mine, theirs).Some? {
        var k := FindFrom(brd, i, mine, theirs).value;
        var j :| i + 1 <= j < |B.WinningLines| && Threatens(brd, j, mine, theirs) &&
          B.OnLine(k, B.WinningLines[j]) && forall l :: i + 1 <= l < j ==> !Threatens(brd, l, mine, theirs);
        assert forall l :: i <= l < j ==> !Threatens(brd, l, mine, theirs);
      }
    }
  }

  /**
   * On a well-marked board a threatening line has exactly one blank,
   * the square the finder returns, and the other two hold `mine`.
   */
  lemma ThreateningLine(brd: map<int, string>, i: int, mine: string, theirs: string)
    requires WellMarked(brd) && 0 <= i < |B.WinningLines| && Threatens(brd, i, mine, theirs)
    requires mine != theirs && mine != InitialMarker && theirs != InitialMarker
    requires (mine == PlayerMarker && theirs == ComputerMarker) || (mine == ComputerMarker && theirs == PlayerMarker)
    ensures B.OnBoard(B.WinningLines[i])
    ensures var line := B.WinningLines[i];
      var k := FirstNotHolding(brd, line, mine);
      brd[k] == InitialMarker &&
      (line.a != k ==> brd[line.a] == mine) && (line.b != k ==> brd[line.b] == mine) &&
      (line.c != k ==> brd[line.c] == mine)
  {
    B.LinesAreOnTheBoard(i);
  }

  /**
   * The square `FindFrom` returns is blank, and marking it with `mine`
   * fills a line with `mine`.
   */
  lemma FoundSquareCompletesALine(brd: map<int, string>, mine: string, theirs: string)
    requires WellMarked(brd)
    requires (mine == PlayerMarker && theirs == ComputerMarker) || (mine == ComputerMarker && theirs == PlayerMarker)
    requires FindFrom(brd, 0, mine, theirs).Some?
    ensures var k := FindFrom(brd, 0, mine, theirs).value;
      B.IsKey(k) && brd[k] == InitialMarker &&
      exists j :: 0 <= j < |B.WinningLines| && B.OnLine(k, B.WinningLines[j]) && ThreeOf(brd[k := mine], j, mine)
  {
    MarkersDiffer();
    FindFromSpec(brd, 0, mine, theirs);
    var j := FirstThreat(brd, 0, mine, theirs);
    ThreateningLine(brd, j, mine, theirs);
    var k := FindFrom(brd, 0, mine, theirs).value;
    ThreeOfMeansFilled(brd[k := mine], j, mine);
  }

  /** The index of the line `FindFrom` takes its square from. */
  function FirstThreat(brd: map<int, string>, i: nat, mine: string, theirs: string): (j: nat)
    requires B.Complete(brd) && i <= |B.WinningLines| && FindFrom(brd, i, mine, theirs).Some?
    ensures i <= j < |B.WinningLines| && Threatens(brd, j, mine, theirs)
    ensures B.OnBoard(B.WinningLines[j])
    ensures FindFrom(brd, i, mine, theirs) == Some(FirstNotHolding(brd, B.WinningLines[j], mine))
    decreases |B.WinningLines| - i
  {
    B.LinesAreOnTheBoard(i);
    if Threatens(brd, i, mine, theirs) then i else FirstThreat(brd, i + 1, mine, theirs)
  }

  /** The `brd` hash, which the placing methods change in place. */
  class Board {
    var squares: map<int, string>

    constructor(squares: map<int, string>)
      ensures this.squares == squares
    {
      this.squares := squares;
    }
  }

  /** `player_places_piece!`, given the square the player validly chose. */
  method PlayerPlacesPiece(board: Board, square: int)
    requires WellMarked(board.squares) && square in EmptySquares(board.squares)
    modifies board
    ensures WellMarked(board.squares) && board.squares == old(board.squares)[square := PlayerMarker]
    ensures |EmptySquares(board.squares)| == |old(EmptySquares(board.squares))| - 1
  {
    MarkersDiffer();
    B.OneFewerHolding(board.squares, square, InitialMarker, PlayerMarker);
    board.squares := board.squares[square := PlayerMarker];
  }

  /**
   * `computer_places_piece!`: complete a line, else block the player,
   * else take the centre unless either side holds it, else any blank.
   * It marks exactly one square that was blank.
   */
  method ComputerPlacesPiece(board: Board) returns (square: int)
    requires WellMarked(board.squares) && !BoardFull(board.squares)
    modifies board
    ensures WellMarked(board.squares)
    ensures B.IsKey(square) && old(board.squares)[square] == InitialMarker
    ensures board.squares == old(board.squares)[square := ComputerMarker]
    ensures |EmptySquares(board.squares)| == |old(EmptySquares(board.squares))| - 1
    ensures var win := FindWinningOpportunity(old(board.squares));
      var risk := FindAtRiskSquare(old(board.squares));
      if win.Some? then square == win.value
      else if risk.Some? then square == risk.value
      else if old(board.squares)[Center] == InitialMarker then square == Center
      else true
  {
    MarkersDiffer();
    var brd := board.squares;
    if FindWinningOpportunity(brd).Some? {
      FoundSquareCompletesALine(brd, ComputerMarker, PlayerMarker);
      square := FindWinningOpportunity(brd).value;
    } else if FindAtRiskSquare(brd).Some? {
      FoundSquareCompletesALine(brd, PlayerMarker, ComputerMarker);
      square := FindAtRiskSquare(brd).value;
    } else if brd[Center] != PlayerMarker && brd[Center] != ComputerMarker {
      square := Center;
    } else {
      var empty := EmptySquares(brd);
      var i :| 0 <= i < |empty|;
      square := empty[i];
    }
    B.OneFewerHolding(brd, square, InitialMarker, ComputerMarker);
    board.squares := brd[square := ComputerMarker];
  }

  /** The `score` hash: wins for 'Player' and for 'Computer'. */
  class Score {
    var player: nat
    var computer: nat

    constructor()
      ensures player == 0 && computer == 0
    {
      player := 0;
      computer := 0;
    }
  }

  /** `update_score`: one point to the detected winner, none when there is none. */
  method UpdateScore(brd: map<int, string>, scr: Score)
    requires B.Complete(brd)
    modifies scr
    ensures scr.player == old(scr.player) + (if DetectWinner(brd) == Some(PlayerName) then 1 else 0)
    ensures scr.computer == old(scr.computer) + (if DetectWinner(brd) == Some(ComputerName) then 1 else 0)
    ensures scr.player + scr.computer == old(scr.player + scr.computer) + (if SomeoneWon(brd) then 1 else 0)
  {
    DetectWinnerSome(brd, 0);
    var winner := DetectWinner(brd);
    if winner == Some(PlayerName) {
      scr.player := scr.player + 1;
    } else if winner == Some(ComputerName) {
      scr.computer := scr.computer + 1;
    }
  }

  /** `five_wins_reached?`. */
  predicate FiveWinsReached(scr: Score)
    reads scr
  {
    scr.player == WinsNeeded || scr.computer == WinsNeeded
  }

  /**
   * `overall_winner`: `scr.key(5)`, the first key of the hash, 'Player'
   * before 'Computer', whose score is 5; nil while neither has 5.
   */
  function OverallWinner(scr: Score): (r: Option<string>)
    reads scr
    ensures r.Some? <==> FiveWinsReached(scr)
    ensures r == Some(PlayerName) <==> scr.player == WinsNeeded
    ensures r == Some(ComputerName) <==> scr.player != WinsNeeded && scr.computer == WinsNeeded
  {
    if scr.player == WinsNeeded then Some(PlayerName)
    else if scr.computer == WinsNeeded then Some(ComputerName)
    else None
  }

  /** `alternate_player`: the other side; nil for a name that is neither. */
  function AlternatePlayer(current: string): (r: Option<string>)
    ensures r.Some? <==> current == PlayerName || current == ComputerName
  {
    if current == PlayerName then Some(ComputerName)
    else if current == ComputerName then Some(PlayerName)
    else None
  }

  /** Alternating swaps the two sides, and alternating twice gives back the same side. */
  lemma AlternateIsAnInvolution(current: string)
    requires current == PlayerName || current == ComputerName
    ensures AlternatePlayer(current).Some? && AlternatePlayer(current).value != current
    ensures AlternatePlayer(AlternatePlayer(current).value) == Some(current)
  {
  }

  /** `place_piece!`: the side whose turn it is places a piece; any other name places nothing. */
  method PlacePiece(board: Board, current: string, square: int)
    requires WellMarked(board.squares) && !BoardFull(board.squares)
    requires current == PlayerName ==> square in EmptySquares(board.squares)
    modifies board
    ensures WellMarked(board.squares)
    ensures current == PlayerName ==> board.squares == old(board.squares)[square := PlayerMarker]
    ensures current == ComputerName ==>
      exists k :: B.IsKey(k) && old(board.squares)[k] == InitialMarker &&
        board.squares == old(board.squares)[k := ComputerMarker]
    ensures current != PlayerName && current != ComputerName ==> board.squares == old(board.squares)
  {
    if current == PlayerName {
      PlayerPlacesPiece(board, square);
    } else if current == ComputerName {
      var k := ComputerPlacesPiece(board);
    }
  }
}
