/**
 * The single-script Rock-Paper-Scissors-Lizard-Spock game
 * (rock_paper_scissors_lizard_spock-oop.rb): choices are plain strings,
 * `win?` is a chain of string comparisons, and the `details` hash holds
 * each side's score and a winner flag for the latest round.
 */
module RpslsSimple {
  import opened RpslsMoves
  import opened Wrappers

  /** `VALID_CHOICES` and `VALID_SHORTENED`, index for index. */
  const ValidChoices: seq<string> := ["rock", "paper", "scissors", "lizard", "spock"]
  const ValidShortened: seq<string> := ["r", "p", "x", "l", "s"]

  /** A match is won by the first side to reach this many points. */
  const GrandWinningScore: nat := 5

  predicate ValidLong(choice: string) {
    choice in ValidChoices
  }

  predicate ValidShort(choice: string) {
    choice in ValidShortened
  }

  /** The first position of x in s (`find_index`). */
  function FindIndex(s: seq<string>, x: string): (i: nat)
    requires x in s
    ensures i < |s| && s[i] == x
    ensures forall j :: 0 <= j < i ==> s[j] != x
  {
    if s[0] == x then 0 else 1 + FindIndex(s[1..], x)
  }

  /**
   * `convert_to_long`: the long name at the position of the short one.
   * Only called after `valid_short?`; on any other string the source
   * indexes with nil and raises.
   */
  function ConvertToLong(choice: string): (r: string)
    requires ValidShort(choice)
    ensures ValidLong(r)
    ensures FindIndex(ValidChoices, r) == FindIndex(ValidShortened, choice)
  {
    var i := FindIndex(ValidShortened, choice);
    assert ValidChoices[FindIndex(ValidChoices, ValidChoices[i])] == ValidChoices[i];
    ValidChoices[i]
  }

  /** The five conversions, written out. */
  lemma ConvertToLongTable()
    ensures ConvertToLong("r") == "rock" && ConvertToLong("p") == "paper"
    ensures ConvertToLong("x") == "scissors" && ConvertToLong("l") == "lizard"
    ensures ConvertToLong("s") == "spock"
  {
    assert ValidShortened[0] == "r" && ValidShortened[1] == "p" && ValidShortened[2] == "x";
    assert ValidShortened[3] == "l" && ValidShortened[4] == "s";
  }

  /** Different abbreviations give different long names, and every long name is reached. */
  lemma ConvertToLongIsBijective(a: string, b: string, long: string)
    requires ValidShort(a) && ValidShort(b)
    ensures ConvertToLong(a) == ConvertToLong(b) ==> a == b
    ensures ValidLong(long) ==> exists s :: ValidShort(s) && ConvertToLong(s) == long
  {
    if ConvertToLong(a) == ConvertToLong(b) {
      assert FindIndex(ValidShortened, a) == FindIndex(ValidShortened, b);
    }
    if ValidLong(long) {
      var i := FindIndex(ValidChoices, long);
      var s := ValidShortened[i];
      assert ConvertToLong(s) == ValidChoices[FindIndex(ValidShortened, s)];
      assert FindIndex(ValidShortened, s) == i by {
        ShortenedDistinct();
      }
    }
  }

  lemma ShortenedDistinct()
    ensures forall i, j :: 0 <= i < j < |ValidShortened| ==> ValidShortened[i] != ValidShortened[j]
  {
  }

  /**
   * `win?`: whether `first` beats `second`.  An unrecognised `first`
   * falls through every branch, giving nil, which the callers treat as false.
   */
  function Win(first: string, second: string): (r: bool)
    ensures r ==> ValidLong(first) && ValidLong(second) && first != second
  {
    if first == "rock" then second == "lizard" || second == "scissors"
    else if first == "paper" then second == "rock" || second == "spock"
    else if first == "scissors" then second == "paper" || second == "lizard"
    else if first == "lizard" then second == "spock" || second == "paper"
    else if first == "spock" then second == "rock" || second == "scissors"
    else false
  }

  /** The long name of each move of the class-based version. */
  function LongName(m: Move): (s: string)
    ensures ValidLong(s)
  {
    match m
    case Rock => "rock"
    case Paper => "paper"
    case Scissors => "scissors"
    case Lizard => "lizard"
    case Spock => "spock"
  }

  /** Every valid long choice names exactly one move. */
  lemma LongNameIsBijective(a: Move, b: Move, choice: string)
    ensures LongName(a) == LongName(b) ==> a == b
    ensures ValidLong(choice) ==> exists m :: LongName(m) == choice
  {
    if ValidLong(choice) {
      var i :| 0 <= i < |ValidChoices| && ValidChoices[i] == choice;
      assert LongName(Values[i]) == choice;
    }
  }

  /** `win?` on long names is the `>` table of the class-based version. */
  lemma WinIsBeats(a: Move, b: Move)
    ensures Win(LongName(a), LongName(b)) <==> Beats(a, b)
  {
  }

  /**
   * `win?` is a tournament on the valid choices: no choice beats itself,
   * and of two different choices exactly one beats the other.
   */
  lemma WinIsTournament(a: string, b: string)
    requires ValidLong(a) && ValidLong(b)
    ensures !Win(a, a)
    ensures a != b ==> (Win(a, b) <==> !Win(b, a))
  {
    LongNameIsBijective(Rock, Rock, a);
    LongNameIsBijective(Rock, Rock, b);
    var ma :| LongName(ma) == a;
    var mb :| LongName(mb) == b;
    WinIsBeats(ma, mb);
    WinIsBeats(mb, ma);
    WinIsBeats(ma, ma);
    Irreflexive(ma);
    if a != b {
      Tournament(ma, mb);
      BeatsIsConverseOfLosesTo(ma, mb);
    }
  }

  /** The valid choices a given choice wins against. */
  function Defeated(first: string): (s: set<string>)
    ensures forall x :: x in s <==> ValidLong(x) && Win(first, x)
  {
    set x | x in ValidChoices && Win(first, x)
  }

  /** Every valid choice wins against exactly two others. */
  lemma WinsAgainstTwo(a: string)
    requires ValidLong(a)
    ensures |Defeated(a)| == 2
  {
    if a == "rock" {
      assert Defeated(a) == {"lizard", "scissors"};
    } else if a == "paper" {
      assert Defeated(a) == {"rock", "spock"};
    } else if a == "scissors" {
      assert Defeated(a) == {"paper", "lizard"};
    } else if a == "lizard" {
      assert Defeated(a) == {"spock", "paper"};
    } else {
      assert Defeated(a) == {"rock", "scissors"};
    }
  }

  /** The `details` hash: a score and a latest-round winner flag per side. */
  class Details {
    var playerScore: nat
    var playerWinner: bool
    var computerScore: nat
    var computerWinner: bool

    constructor()
      ensures playerScore == 0 && computerScore == 0
      ensures !playerWinner && !computerWinner
    {
      playerScore := 0;
      playerWinner := false;
      computerScore := 0;
      computerWinner := false;
    }

    /** The flags `assign_results` leaves for a round between these two choices. */
    predicate FlaggedFor(player: string, computer: string)
      reads this
    {
      playerWinner == Win(player, computer) &&
      computerWinner == (!Win(player, computer) && Win(computer, player))
    }

    /**
     * `assign_results`: clear both flags, then raise the player's if the
     * player won, otherwise the computer's if the computer won.
     */
    method AssignResults(player: string, computer: string)
      modifies this`playerWinner, this`computerWinner
      ensures FlaggedFor(player, computer)
      ensures !(playerWinner && computerWinner)
      ensures ValidLong(player) && ValidLong(computer) && player != computer ==>
        playerWinner != computerWinner
    {
      playerWinner := false;
      computerWinner := false;
      if Win(player, computer) {
        playerWinner := true;
      } else if Win(computer, player) {
        computerWinner := true;
      }
      if ValidLong(player) && ValidLong(computer) && player != computer {
        WinIsTournament(player, computer);
      }
    }

    /**
     * `compute_score`: one point to the side that won the round, none on
     * a tie; it credits exactly the side `assign_results` flags.
     */
    method ComputeScore(player: string, computer: string)
      modifies this`playerScore, this`computerScore
      ensures playerScore == old(playerScore) + (if Win(player, computer) then 1 else 0)
      ensures computerScore == old(computerScore) +
        (if !Win(player, computer) && Win(computer, player) then 1 else 0)
      ensures FlaggedFor(player, computer) ==>
        playerScore == old(playerScore) + (if playerWinner then 1 else 0) &&
        computerScore == old(computerScore) + (if computerWinner then 1 else 0)
      ensures playerScore + computerScore <= old(playerScore + computerScore) + 1
      ensures player == computer ==> playerScore == old(playerScore) && computerScore == old(computerScore)
    {
      if Win(player, computer) {
        playerScore := playerScore + 1;
      } else if Win(computer, player) {
        computerScore := computerScore + 1;
      }
    }

    /** `grand_winner_yet?`: the match is over once a side has 5 points. */
    predicate GrandWinnerYet()
      reads this
    {
      playerScore == GrandWinningScore || computerScore == GrandWinningScore
    }

    /**
     * `get_grand_winner`: the phrase naming the side with 5 points, the
     * player first; nil while nobody has 5.
     */
    function GetGrandWinner(): (r: Option<string>)
      reads this
      ensures r.Some? <==> GrandWinnerYet()
      ensures r == Some("You are") <==> playerScore == GrandWinningScore
      ensures r == Some("The Computer is") <==>
        playerScore != GrandWinningScore && computerScore == GrandWinningScore
    {
      if playerScore == GrandWinningScore then Some("You are")
      else if computerScore == GrandWinningScore then Some("The Computer is")
      else None
    }
  }
}
