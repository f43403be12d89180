# Console games: a Dafny model

This project models the game logic of a small collection of Ruby console
games:

- **Rock, Paper, Scissors, Lizard, Spock (RPSLS)**, in two versions:
  - The class-based version (`rock_paper_scissors_lizard_spock_procedural.rb`) has move classes that compare with `>` and `<`. A `History` per player records choices, results, wins per move and win percentages. The three computer opponents are Hal, R2D2 and DeepThought. Hal and R2D2 draw their move from a fixed weighted pool of 100 entries. DeepThought tests a threshold afresh on every choice: more than three rounds played and the opponent's dominant move winning 20% or more of the rounds. In a round where the threshold holds, it shifts weight away from that move and draws from its adjusted pool, which holds between 96 and 100 entries. In any other round it picks uniformly among the five moves.
  - The flat version (`rock_paper_scissors_lizard_spock-oop.rb`) works on move names and a table of who beats whom, with a `details` record that keeps score to five.
- **Twenty-One**, in two versions:
  - The class-based game (`twenty_one-oop.rb`) has a 56-card deck (values 1 to 10, three faces and an ace, in four suits), a bust limit of 21, and a dealer who draws to 17.
  - The procedural game (`twenty_one-procedural.rb`) plays to 31 with a 52-card deck of string values. Its dealer draws until 27. Aces are downgraded from 11 to 1 while the hand is over 31.
- **Tic-Tac-Toe**, in two versions:
  - The class-based game (`tic_tac_toe-oop.rb`) has a `Board` of nine squares, a computer that takes a winning square, then blocks, then takes the centre, and a match to three wins.
  - The procedural game (`tic_tac_toe-procedural.rb`) has a board hash, the same strategy with different square selection, and a match to five wins.
- **`joinor`**: the list formatters the games use to print "1, 2, or 3" and "a, b and c".

Each source file is one Dafny module:

| Dafny file | Module | Models |
|---|---|---|
| `rpsls_moves.dfy` | `RpslsMoves` | the five moves and their `>`/`<` |
| `rpsls_history.dfy` | `RpslsHistory` | `History`, round results, the dominant move |
| `rpsls_players.dfy` | `RpslsPlayers` | `Player`, the computer models, `RPSLSGame` |
| `rpsls_simple.dfy` | `RpslsSimple` | the flat RPSLS game |
| `twenty_one_oop.dfy` | `TwentyOneOop` | `Deck`, `Card`, `Participant`, `Game` |
| `twenty_one_procedural.dfy` | `TwentyOneProcedural` | the procedural Twenty-One |
| `tictactoe_board.dfy` | `TicTacToeBoard` | the winning lines and square keys both Tic-Tac-Toe scripts share |
| `tictactoe_oop.dfy` | `TicTacToeOop` | `Board`, `Square` markers, `Player`, `TTTGame` |
| `tictactoe_procedural.dfy` | `TicTacToeProcedural` | the procedural Tic-Tac-Toe |
| `list_format.dfy` | `ListFormat` | both `joinor` variants |
| `wrappers.dfy` | `Wrappers` | `Option`, standing for Ruby's `nil` |

How the Ruby is modelled:

- Objects whose fields the Ruby updates in place are Dafny classes: `History`, `Player`, `Computer`, the games, `Deck`, `Participant`, `Board` and `Score`. Their methods carry `modifies` clauses, and each method that acts on one object or one pair of players states the new value of every field it modifies. Where the Ruby draws at random, the contract names the set the draw comes from. The two whole-round methods, `TwentyOneOop.Game.PlayRound` and `TwentyOneProcedural.PlayRound`, deal from a shuffled deck. They state the scores, that no card is lost, and the totals each turn reaches, but not which cards each hand ends with.
- Pure helpers are functions.
- A loop that updates variables step by step is a method with a `while` or `for` loop, proved against a specification function. Examples are `History.UpdateWinPercentages`, `Computer.ChoiceSet`, the deck and hand loops of Twenty-One, `Board.WinningMarker`, `Board.FindSquare` and `JoinAnd`.
- An early-return `each` search or a `reduce` that only computes a value is a recursive function. These are `DominantFold`, `WinnerFrom`, `FindFrom`, `DetectWinnerFrom`, `KeysHolding`, `OrJoinFrom` and `AndJoinFrom`.
- `nil` results are `Option.None`.
- Ruby's `sample` and `shuffle` become a nondeterministic choice (`:|`) among the allowed values. Every contract holds for every choice.
- The human's console answers are parameters.

## Model

| member | source | states |
|---|---|---|
| RpslsMoves.Beats | rock_paper_scissors_lizard_spock_procedural.rb:27-115 | `a > b` of the five move classes. Victims, Tournament and TwoVictimsTwoConquerors state its properties |
| RpslsMoves.LosesTo | rock_paper_scissors_lizard_spock_procedural.rb:27-115 | `a < b` of the five move classes, written separately from `>`. Conquerors and BeatsIsConverseOfLosesTo state its properties |
| RpslsMoves.Victims | rock_paper_scissors_lizard_spock_procedural.rb:27-115 | the set of moves a move beats with `>`, exactly |
| RpslsMoves.Conquerors | rock_paper_scissors_lizard_spock_procedural.rb:27-115 | the set of moves a move loses to with `<`, exactly |
| RpslsMoves.ValuesEnumerateAllMoves | rock_paper_scissors_lizard_spock_procedural.rb:1-4 | `Move::VALUES` lists each of the five moves exactly once |
| RpslsMoves.Irreflexive | rock_paper_scissors_lizard_spock_procedural.rb:27-115 | no move is `>` or `<` itself, so equal moves draw |
| RpslsMoves.BeatsIsConverseOfLosesTo | rock_paper_scissors_lizard_spock_procedural.rb:27-115 | `a > b` holds exactly when `b < a`: the two method families agree |
| RpslsMoves.Tournament | rock_paper_scissors_lizard_spock_procedural.rb:27-115 | for distinct moves exactly one of `a > b`, `a < b` holds, and exactly one of `a > b`, `b > a` |
| RpslsMoves.TwoVictimsTwoConquerors | rock_paper_scissors_lizard_spock_procedural.rb:27-115 | every move beats exactly two moves and loses to exactly two others |
| RpslsHistory.Mirror | rock_paper_scissors_lizard_spock_procedural.rb:185-198 | the result the other player records for the same round. ReciprocalResults states it |
| RpslsHistory.RoundResult | rock_paper_scissors_lizard_spock_procedural.rb:185-198 | the recorded result is won iff mine `>` theirs, lost iff mine `<` theirs, draw iff the moves are equal |
| RpslsHistory.ReciprocalResults | rock_paper_scissors_lizard_spock_procedural.rb:185-198 | the two players' results for one round mirror each other: one wins iff the other loses |
| RpslsHistory.CountWon | rock_paper_scissors_lizard_spock_procedural.rb:185-198 | the number of wins never exceeds the number of rounds |
| RpslsHistory.WinAtMostWinCount | rock_paper_scissors_lizard_spock_procedural.rb:120-131 | each move's win count is at most the total number of wins |
| RpslsHistory.Percentage | rock_paper_scissors_lizard_spock_procedural.rb:133-139 | `wins * 100.0 / rounds`, 0 before any round. PercentageBounds and PercentageAdds state its properties |
| RpslsHistory.PercentageBounds | rock_paper_scissors_lizard_spock_procedural.rb:133-139 | a win percentage lies between 0 and 100 when wins do not exceed rounds |
| RpslsHistory.PercentageAdds | rock_paper_scissors_lizard_spock_procedural.rb:133-139 | percentages over the same number of rounds add like the win counts |
| RpslsHistory.History.constructor | rock_paper_scissors_lizard_spock_procedural.rb:120-131 | a new history has no choices, no results, and zero wins and percentages for every move |
| RpslsHistory.History.UpdateWinPercentages | rock_paper_scissors_lizard_spock_procedural.rb:133-139 | every move's percentage becomes wins times 100 divided by the number of rounds |
| RpslsHistory.History.DominantMove | rock_paper_scissors_lizard_spock_procedural.rb:141-151 | a dominant move always exists and no move has a higher percentage |
| RpslsHistory.History.PercentagesBounded | rock_paper_scissors_lizard_spock_procedural.rb:133-139 | in a consistent history every percentage is in 0..100 and together they sum to at most 100 |
| RpslsHistory.IndexOf | rock_paper_scissors_lizard_spock_procedural.rb:1-4 | the position of a move in `VALUES` |
| RpslsHistory.DominantFold | rock_paper_scissors_lizard_spock_procedural.rb:141-151 | the `>=` scan of `dominant_move` over a list of moves. DominantFoldSpec, DominantFoldTakes and DominantFoldSkips state its result |
| RpslsHistory.Dominant | rock_paper_scissors_lizard_spock_procedural.rb:141-151 | `dominant_move` over `VALUES` from nil and 0. DominantIsLastMaximum and DominantWithoutWinsIsSpock state its result |
| RpslsHistory.DominantFoldSpec | rock_paper_scissors_lizard_spock_procedural.rb:141-151 | the `>=` scan keeps its start value when no move reaches it, else returns a maximal move with no larger-or-equal one after it |
| RpslsHistory.DominantFoldTakes | rock_paper_scissors_lizard_spock_procedural.rb:141-151 | the scan's result when the first move reaches the running best |
| RpslsHistory.DominantFoldSkips | rock_paper_scissors_lizard_spock_procedural.rb:141-151 | the scan's result when the first move falls below the running best |
| RpslsHistory.DominantIsLastMaximum | rock_paper_scissors_lizard_spock_procedural.rb:141-151 | with non-negative percentages `dominant_move` returns a maximal move, the last one in `VALUES` order among ties |
| RpslsHistory.DominantWithoutWinsIsSpock | rock_paper_scissors_lizard_spock_procedural.rb:141-151 | before any win every move ties at 0, and the dominant move is Spock |
| RpslsPlayers.Player.constructor | rock_paper_scissors_lizard_spock_procedural.rb:157-161 | a new player has no move, score 0 and an empty history |
| RpslsPlayers.Player.Choose | rock_paper_scissors_lizard_spock_procedural.rb:163-171 | the chosen move becomes the player's move |
| RpslsPlayers.Player.RecordChoice | rock_paper_scissors_lizard_spock_procedural.rb:177-179 | the current move is appended to the choice history, nothing else changes |
| RpslsPlayers.Player.RecordResult | rock_paper_scissors_lizard_spock_procedural.rb:185-198 | the round result is appended; on a win the score and the move's win count go up by one (CreditWin), otherwise they are unchanged; the choice log is unchanged |
| RpslsPlayers.CreditWin | rock_paper_scissors_lizard_spock_procedural.rb:188-191 | the win counts after a round: the played move's count is one higher on a win, and nothing else changes. RecordResult and Game.RecordResults state the new counts with it |
| RpslsPlayers.Player.UpdateMoveWins | rock_paper_scissors_lizard_spock_procedural.rb:200-202 | exactly that move's win count goes up by one, so the total wins go up by one |
| RpslsPlayers.CountWonAppend | rock_paper_scissors_lizard_spock_procedural.rb:185-198 | appending a result adds one win exactly when it is a win |
| RpslsPlayers.EvenDistribution | rock_paper_scissors_lizard_spock_procedural.rb:296-302 | the initial weights cover all five moves |
| RpslsPlayers.HalDistribution | rock_paper_scissors_lizard_spock_procedural.rb:330-334 | Hal's weight table covers all five moves |
| RpslsPlayers.R2D2Distribution | rock_paper_scissors_lizard_spock_procedural.rb:346-351 | R2D2's weight table covers all five moves |
| RpslsPlayers.FixedDistributionsValid | rock_paper_scissors_lizard_spock_procedural.rb:296-302 | the even, Hal and R2D2 tables are non-negative and sum to 100; the even one gives 20 to each move |
| RpslsPlayers.Copies | rock_paper_scissors_lizard_spock_procedural.rb:304-314 | `to_i` of a non-negative weight is its floor |
| RpslsPlayers.Repeat | rock_paper_scissors_lizard_spock_procedural.rb:304-314 | `n.times { set << move }` adds exactly n copies of the move |
| RpslsPlayers.RepeatCount | rock_paper_scissors_lizard_spock_procedural.rb:304-314 | a block of n copies holds n of that move and none of the others |
| RpslsPlayers.Pool | rock_paper_scissors_lizard_spock_procedural.rb:304-314 | `create_new_choice_set` over `VALUES`. PoolBlocks, PoolCounts, PoolMembership and PoolNotEmpty state its contents |
| RpslsPlayers.PoolBlocks | rock_paper_scissors_lizard_spock_procedural.rb:304-314 | the choice set is the five blocks of copies in `VALUES` order |
| RpslsPlayers.PoolCounts | rock_paper_scissors_lizard_spock_procedural.rb:304-314 | each move occurs in the choice set as often as the floor of its weight |
| RpslsPlayers.PoolMembership | rock_paper_scissors_lizard_spock_procedural.rb:304-314 | a move can be drawn iff its weight is at least 1 |
| RpslsPlayers.EvenPool | rock_paper_scissors_lizard_spock_procedural.rb:296-314 | the initial choice set has 100 entries, 20 of each move |
| RpslsPlayers.HalPool | rock_paper_scissors_lizard_spock_procedural.rb:330-334 | Hal draws from 100 entries: 60 scissors and 10 of each other move |
| RpslsPlayers.R2D2Pool | rock_paper_scissors_lizard_spock_procedural.rb:346-351 | R2D2 draws from 100 entries: 60 rocks and 10 of each other move |
| RpslsPlayers.FixedCopies | rock_paper_scissors_lizard_spock_procedural.rb:330-351 | the copies Hal's and R2D2's tables give each move |
| RpslsPlayers.PoolNotEmpty | rock_paper_scissors_lizard_spock_procedural.rb:304-318 | weights that are non-negative and sum to 100 give at least 96 entries, so `sample` always has a move to draw |
| RpslsPlayers.Without | rock_paper_scissors_lizard_spock_procedural.rb:389-396 | `VALUES - [dominant]` keeps exactly the other moves |
| RpslsPlayers.OtherMovesSum | rock_paper_scissors_lizard_spock_procedural.rb:389-396 | removing the dominant move leaves four distinct moves whose weights sum to the total minus the dominant one's |
| RpslsPlayers.SumOfOthers | rock_paper_scissors_lizard_spock_procedural.rb:389-396 | the other four weights sum to the total minus the dominant weight |
| RpslsPlayers.Others | rock_paper_scissors_lizard_spock_procedural.rb:389-396 | there are four other moves |
| RpslsPlayers.WithoutDistinct | rock_paper_scissors_lizard_spock_procedural.rb:389-396 | removing a present move from a duplicate-free list shortens it by one and keeps it duplicate-free |
| RpslsPlayers.WithoutAbsent | rock_paper_scissors_lizard_spock_procedural.rb:389-396 | removing a move that is absent changes nothing |
| RpslsPlayers.OthersInOrder | rock_paper_scissors_lizard_spock_procedural.rb:389-396 | `VALUES - [dominant]` is the four other moves in `VALUES` order |
| RpslsPlayers.AdjustmentStepsFireTogether | rock_paper_scissors_lizard_spock_procedural.rb:398-427 | on valid weights, either the dominant weight loses a quarter of the difference and each other move gains a sixteenth, or nothing changes |
| RpslsPlayers.BothStepsFire | rock_paper_scissors_lizard_spock_procedural.rb:398-427 | when the dominant weight covers a quarter of the difference, both the subtraction and the additions happen |
| RpslsPlayers.NeitherStepFires | rock_paper_scissors_lizard_spock_procedural.rb:398-427 | when it does not, the addition's guard fails too and the weights are unchanged |
| RpslsPlayers.OthersAfterSubtraction | rock_paper_scissors_lizard_spock_procedural.rb:407-427 | after the subtraction the other four weights still sum to 100 minus the old dominant weight |
| RpslsPlayers.Subtracted | rock_paper_scissors_lizard_spock_procedural.rb:407-411 | `subtract_from_dominant_move` on a weight table. SubtractedSpec states its result |
| RpslsPlayers.Added | rock_paper_scissors_lizard_spock_procedural.rb:413-427 | `add_to_other_moves` on a weight table. AddedSpec states its result |
| RpslsPlayers.Adjusted | rock_paper_scissors_lizard_spock_procedural.rb:398-405 | `update_choice_distribution`: no change unless the difference is positive, then the subtraction and the additions. AdjustedKeepsWeightsValid and AdjustmentStepsFireTogether state its properties |
| RpslsPlayers.SubtractedSpec | rock_paper_scissors_lizard_spock_procedural.rb:407-411 | `subtract_from_dominant_move` lowers only the dominant weight, by a quarter of the difference, and only when that keeps it non-negative |
| RpslsPlayers.AddedSpec | rock_paper_scissors_lizard_spock_procedural.rb:413-427 | `add_to_other_moves` adds a sixteenth of the difference to each listed move when their sum plus a quarter stays within 100; otherwise nothing changes |
| RpslsPlayers.TotalWithout | rock_paper_scissors_lizard_spock_procedural.rb:398-427 | two weight tables that agree off the dominant move have the same total apart from it |
| RpslsPlayers.AdjustedKeepsWeightsValid | rock_paper_scissors_lizard_spock_procedural.rb:398-427 | updating the distribution keeps every weight non-negative and the total at exactly 100 |
| RpslsPlayers.Computer.constructor | rock_paper_scissors_lizard_spock_procedural.rb:289-302 | a new computer player has the chosen model, the even distribution, no move and score 0 |
| RpslsPlayers.Computer.ChoiceSet | rock_paper_scissors_lizard_spock_procedural.rb:304-314 | the loop builds the weighted pool: each move repeated the floor of its weight times, in `VALUES` order |
| RpslsPlayers.Computer.ChooseFromWeightedDistribution | rock_paper_scissors_lizard_spock_procedural.rb:316-318 | the sampled move is in the pool and has a weight of at least 1 |
| RpslsPlayers.Computer.UpdateChoiceDistribution | rock_paper_scissors_lizard_spock_procedural.rb:398-405 | the subtraction then the additions give the adjusted distribution, which stays valid |
| RpslsPlayers.Computer.SubtractFromDominantMove | rock_paper_scissors_lizard_spock_procedural.rb:407-411 | the new distribution is the subtracted one |
| RpslsPlayers.Computer.AddToOtherMoves | rock_paper_scissors_lizard_spock_procedural.rb:413-427 | the loop over the other moves gives the added-to distribution |
| RpslsPlayers.Computer.Choose | rock_paper_scissors_lizard_spock_procedural.rb:330-374 | Hal and R2D2 draw from their fixed tables. DeepThought adjusts its weights past the threshold and then draws from them; below the threshold it keeps its weights |
| RpslsPlayers.Computer.ChooseAdaptively | rock_paper_scissors_lizard_spock_procedural.rb:365-396 | DeepThought's choice: past the threshold, adjust against the opponent's dominant move and draw from the adjusted pool |
| RpslsPlayers.Computer.ChooseFromTable | rock_paper_scissors_lizard_spock_procedural.rb:330-351 | Hal and R2D2 replace their distribution by their table and draw a move from its pool |
| RpslsPlayers.Computer.ThresholdConditionMet | rock_paper_scissors_lizard_spock_procedural.rb:378-383 | `threshold_condition_met?`: the opponent's dominant move is at 20% or more and over three results are recorded. ThresholdMeansOpponentWonWithIt states what it implies |
| RpslsPlayers.Computer.Difference | rock_paper_scissors_lizard_spock_procedural.rb:389-396 | the opponent's win percentage with the dominant move less this computer's. MakeChoices and ChooseAdaptively state the adjustment it drives |
| RpslsPlayers.ThresholdMeansOpponentWonWithIt | rock_paper_scissors_lizard_spock_procedural.rb:378-383 | a dominant move at the 20% threshold has at least one recorded win, and won at least one round in five |
| RpslsPlayers.PercentageAtLeast | rock_paper_scissors_lizard_spock_procedural.rb:133-139 | a percentage at least c means at least one round, and wins times 100 at least c times rounds |
| RpslsPlayers.Game.constructor | rock_paper_scissors_lizard_spock_procedural.rb:436-446 | a new game has a human and a computer of the chosen model, both at score 0, with separate histories |
| RpslsPlayers.Game.MakeChoices | rock_paper_scissors_lizard_spock_procedural.rb:519-526 | the human's move is the one given. The computer chooses against the human: Hal and R2D2 take their table and draw from its pool. DeepThought, past the threshold on the human's dominant move, adjusts its weights by the human's lead and draws from the new pool; otherwise it keeps its weights |
| RpslsPlayers.Game.RecordChoices | rock_paper_scissors_lizard_spock_procedural.rb:528-531 | each player's move is appended to its own choice history |
| RpslsPlayers.Game.RecordResults | rock_paper_scissors_lizard_spock_procedural.rb:538-541 | the human records the round result and the computer the mirrored one. Only the winner scores, and at most one point is given per round. The winner's history credits the move it played with one more win; the other win counts and both choice logs are unchanged. A round played before the maximum was reached leaves both scores at most 7 and never both at 7 |
| RpslsPlayers.Game.MaxReached | rock_paper_scissors_lizard_spock_procedural.rb:495-497 | `max_reached?`: true only when a player has exactly 7 points. While both scores are at most 7, the game goes on exactly when both are below 7; with RecordResults this makes the `==` test end the game at the first player to reach 7 |
| RpslsSimple.ValidLong | rock_paper_scissors_lizard_spock-oop.rb:19-21 | `valid_long?`: membership in `VALID_CHOICES`. LongNameIsBijective states its extent |
| RpslsSimple.ValidShort | rock_paper_scissors_lizard_spock-oop.rb:23-25 | `valid_short?`: membership in the shorthand list. ConvertToLong states how it maps to the long names |
| RpslsSimple.FindIndex | rock_paper_scissors_lizard_spock-oop.rb:27-29 | the first position of a name in a list |
| RpslsSimple.ConvertToLong | rock_paper_scissors_lizard_spock-oop.rb:27-29 | a valid shorthand becomes the valid long name at the same position |
| RpslsSimple.ConvertToLongTable | rock_paper_scissors_lizard_spock-oop.rb:1-2 | r, p, x, l and s expand to rock, paper, scissors, lizard and spock |
| RpslsSimple.ConvertToLongIsBijective | rock_paper_scissors_lizard_spock-oop.rb:27-29 | the conversion is one-to-one and reaches every long name |
| RpslsSimple.ShortenedDistinct | rock_paper_scissors_lizard_spock-oop.rb:2 | the shorthand letters are all different |
| RpslsSimple.Win | rock_paper_scissors_lizard_spock-oop.rb:31-43 | `win?` holds only for two different valid names |
| RpslsSimple.LongName | rock_paper_scissors_lizard_spock-oop.rb:1 | each move's name is a valid choice |
| RpslsSimple.LongNameIsBijective | rock_paper_scissors_lizard_spock-oop.rb:1 | move names are one-to-one and cover `VALID_CHOICES` |
| RpslsSimple.WinIsBeats | rock_paper_scissors_lizard_spock-oop.rb:4-13 | the flat `details` table agrees with the class-based `>` on every pair of moves |
| RpslsSimple.WinIsTournament | rock_paper_scissors_lizard_spock-oop.rb:31-43 | no name beats itself; of two different names exactly one beats the other |
| RpslsSimple.Defeated | rock_paper_scissors_lizard_spock-oop.rb:4-13 | the set of valid names a name beats |
| RpslsSimple.WinsAgainstTwo | rock_paper_scissors_lizard_spock-oop.rb:4-13 | every valid name beats exactly two others |
| RpslsSimple.Details.constructor | rock_paper_scissors_lizard_spock-oop.rb:94-96 | a new match starts at 0 to 0 with no winner flagged |
| RpslsSimple.Details.AssignResults | rock_paper_scissors_lizard_spock-oop.rb:45-54 | the flags record `win?` each way; never both; for two different valid choices exactly one |
| RpslsSimple.Details.ComputeScore | rock_paper_scissors_lizard_spock-oop.rb:66-72 | the winner of the round gains one point and nobody else does; equal choices score nothing |
| RpslsSimple.Details.GrandWinnerYet | rock_paper_scissors_lizard_spock-oop.rb:74-82 | `grand_winner_yet?`: a side has 5 points. GetGrandWinner states the winner it implies |
| RpslsSimple.Details.GetGrandWinner | rock_paper_scissors_lizard_spock-oop.rb:74-90 | a grand winner exists iff someone has 5 points; the player is named first |
| TwentyOneOop.NumericValue | twenty_one-oop.rb:47-53 | number cards count their number, faces 10, the ace 11 |
| TwentyOneOop.ValuesWorth | twenty_one-oop.rb:3 | every value in `VALUES` is worth 1 to 11, and 11 only for the ace |
| TwentyOneOop.FullDeck | twenty_one-oop.rb:21-29 | the deck in `create_deck` order, suit by suit. FullDeckAt and FullDeckShape state its contents |
| TwentyOneOop.FullDeckPrefixStep | twenty_one-oop.rb:21-29 | the nested loop appends card (suit i, value j) at position 14i + j |
| TwentyOneOop.FullDeckAt | twenty_one-oop.rb:21-29 | the card at position 14i + j is (suit i, value j) |
| TwentyOneOop.FullDeckShape | twenty_one-oop.rb:21-29 | the fresh deck has 56 distinct cards, one per suit and value |
| TwentyOneOop.AddCard | twenty_one-oop.rb:64-73 | one card of the `cards_total` loop: add its value, then downgrade an ace that busts. HandTotalAppend states the result |
| TwentyOneOop.TotalFrom | twenty_one-oop.rb:64-73 | the running total after a sequence of cards. TotalFromAppend states the step |
| TwentyOneOop.HandTotal | twenty_one-oop.rb:64-73 | `cards_total` as a function of the hand. HandTotalAtLeastSize and TotalDependsOnOrder state its properties |
| TwentyOneOop.TotalFromAppend | twenty_one-oop.rb:64-73 | the running total over a hand with one more card is one more step of the loop |
| TwentyOneOop.HandTotalAppend | twenty_one-oop.rb:64-73 | a drawn ace counts 1 if 11 would pass 21, else its value counts; the total always grows |
| TwentyOneOop.HandTotalAtLeastSize | twenty_one-oop.rb:64-73 | every card adds at least 1 to the total |
| TwentyOneOop.TotalDependsOnOrder | twenty_one-oop.rb:64-73 | the ace is decided when it is reached: ace, 9, 5 totals 25 but 9, 5, ace totals 15 |
| TwentyOneOop.Deck.constructor | twenty_one-oop.rb:7-9 | a new deck holds the full deck |
| TwentyOneOop.Deck.Reset | twenty_one-oop.rb:11-13 | resetting restores the full deck |
| TwentyOneOop.Deck.CreateDeck | twenty_one-oop.rb:21-29 | the nested loops build the full deck, suit by suit |
| TwentyOneOop.Deck.Deal | twenty_one-oop.rb:15-17 | dealing from an empty deck gives nothing; otherwise one card is removed at some position and returned, and the rest keep their order |
| TwentyOneOop.Participant.constructor | twenty_one-oop.rb:59-62 | a new participant has no cards and score 0 |
| TwentyOneOop.Participant.CardsTotal | twenty_one-oop.rb:64-73 | the loop computes the hand total, with the ace rule applied card by card |
| TwentyOneOop.Participant.Busted | twenty_one-oop.rb:75-77 | busted iff the total is over 21 |
| TwentyOneOop.Participant.ResetCards | twenty_one-oop.rb:79-81 | the hand is emptied |
| TwentyOneOop.Credited | twenty_one-oop.rb:191-204 | the player is credited iff not bust and the dealer busts or is lower; the dealer iff the player busts or the dealer is higher; nobody on equal totals at most 21 |
| TwentyOneOop.MoveKeepsCards | twenty_one-oop.rb:147-149 | moving a dealt card into a hand neither creates nor loses cards |
| TwentyOneOop.HandGrewByOne | twenty_one-oop.rb:167-189 | a hand that grows by a card keeps the earlier hands' bound on the totals |
| TwentyOneOop.Game.constructor | twenty_one-oop.rb:105-109 | a new game has a full deck, two empty hands and scores 0 |
| TwentyOneOop.Game.DealCard | twenty_one-oop.rb:147-149 | dealing n cards adds n cards to the end of the hand and takes n from the deck, and no card is lost |
| TwentyOneOop.Game.PlayerHit | twenty_one-oop.rb:167-182 | one hit adds one card and keeps the totals of the earlier hands within 21 |
| TwentyOneOop.Game.PlayerTurn | twenty_one-oop.rb:167-182 | the player hits while answering hit and not bust. On stay every hand reached was within 21; otherwise the last hit busted the hand |
| TwentyOneOop.Game.DealerTurn | twenty_one-oop.rb:184-189 | the dealer draws while at 17 or less and stops above 17; each hand it drew to was at most 17 |
| TwentyOneOop.Game.UpdateScore | twenty_one-oop.rb:191-204 | the credited side's score goes up by one, and only that one |
| TwentyOneOop.Game.ShowResult | twenty_one-oop.rb:210-225 | the announced outcome is the side credited by the totals |
| TwentyOneOop.Game.PlayRound | twenty_one-oop.rb:111-127 | after a round the announced and scored side agree with the totals. A busted player leaves the dealer on two cards; otherwise the dealer ends above 17 |
| TwentyOneOop.Game.Reset | twenty_one-oop.rb:238-243 | a full deck and empty hands again |
| TwentyOneProcedural.ToI | twenty_one-procedural.rb:41-44 | `String#to_i` on an unsigned string: the value of its leading digits, 0 if none. DigitPoints, TenPoints and WordPoints state it on the card values |
| TwentyOneProcedural.CardPoints | twenty_one-procedural.rb:39-45 | what one value adds in `total`. ValuePoints and ValuePointsAtLeastTwo state it for every value |
| TwentyOneProcedural.LeadingDigits | twenty_one-procedural.rb:41-44 | the digit prefix `to_i` reads is a prefix of the string made of digits |
| TwentyOneProcedural.DigitPoints | twenty_one-procedural.rb:39-45 | the values "2" to "9" count their digit |
| TwentyOneProcedural.TenPoints | twenty_one-procedural.rb:39-45 | "10" counts 10 |
| TwentyOneProcedural.NumeralPoints | twenty_one-procedural.rb:4-5 | the numerals "2" to "9" of `VALUES` count 2 to 9 |
| TwentyOneProcedural.WordPoints | twenty_one-procedural.rb:39-45 | a value with no leading digit other than "Ace" has `to_i` 0 and counts 10 |
| TwentyOneProcedural.ValuePoints | twenty_one-procedural.rb:4-5 | `VALUES[i]` counts i + 2 for the numbers, 10 for the faces and 11 for the ace |
| TwentyOneProcedural.ValuePointsAtLeastTwo | twenty_one-procedural.rb:4-5 | every value counts 2 to 11, and 11 only for the ace |
| TwentyOneProcedural.RawSum | twenty_one-procedural.rb:34-46 | the sum before any ace is downgraded. SumOverPermutation states it ignores order |
| TwentyOneProcedural.AceCount | twenty_one-procedural.rb:48 | there are no more aces than cards |
| TwentyOneProcedural.AceCountBound | twenty_one-procedural.rb:48 | the count of aces never exceeds the number of cards |
| TwentyOneProcedural.Downgrade | twenty_one-procedural.rb:48-50 | one round of `sum -= 10 if sum > 31` per ace. DowngradeSpec and DowngradeWithinLimit state its result |
| TwentyOneProcedural.DowngradeSpec | twenty_one-procedural.rb:48-50 | the downgrade loop subtracts 10 some number of times up to the ace count, stops once at most 31, and never skips a step while over 31 |
| TwentyOneProcedural.DowngradeWithinLimit | twenty_one-procedural.rb:48-50 | a sum already at most 31 is not downgraded |
| TwentyOneProcedural.Total | twenty_one-procedural.rb:34-53 | `total`: the raw sum, then one downgrade per ace. TotalSpec, TotalIgnoresOrder and ComputeTotal state its properties |
| TwentyOneProcedural.TotalSpec | twenty_one-procedural.rb:34-53 | the total is the raw sum when that is at most 31. It never drops below the raw sum minus 10 per ace, and is over 31 only when every ace has been downgraded |
| TwentyOneProcedural.SumOverPermutation | twenty_one-procedural.rb:34-46 | the raw sum does not depend on the order of the cards |
| TwentyOneProcedural.TotalIgnoresOrder | twenty_one-procedural.rb:34-53 | the total of a hand depends only on which cards it holds, not their order |
| TwentyOneProcedural.ComputeTotal | twenty_one-procedural.rb:34-53 | the summing loop and the downgrade loop compute the total |
| TwentyOneProcedural.Busted | twenty_one-procedural.rb:55-57 | `busted?`: a total over 31. DetectResult and PlayerTurn use it |
| TwentyOneProcedural.DetectResult | twenty_one-procedural.rb:59-71 | one of five results, each stated as an iff on the two totals: player bust, dealer bust, player higher, dealer higher, equal |
| TwentyOneProcedural.Participant.constructor | twenty_one-procedural.rb:159-166 | a participant starts with no cards, total 0 and score 0 |
| TwentyOneProcedural.UpdateScore | twenty_one-procedural.rb:73-80 | the player scores on a player win or dealer bust, the dealer on a dealer win or player bust, nobody on a tie |
| TwentyOneProcedural.FiveWinsReached | twenty_one-procedural.rb:82-84 | `five_wins_reached?`: a side has 5 wins. OverallWinner states the winner it implies |
| TwentyOneProcedural.OverallWinner | twenty_one-procedural.rb:82-92 | a winner exists iff someone has five wins; the player is named first |
| TwentyOneProcedural.FullDeckShape | twenty_one-procedural.rb:3-5 | the product of suits and values has 52 distinct cards, each pair of suit and value exactly once |
| TwentyOneProcedural.InitializeDeck | twenty_one-procedural.rb:14-16 | the shuffled deck is a permutation of the 52 cards |
| TwentyOneProcedural.TakeCard | twenty_one-procedural.rb:199-205 | `deck.pop` moves the last card onto the hand and the total is recomputed; no card is lost |
| TwentyOneProcedural.Popped | twenty_one-procedural.rb:199-205 | the cards `pop` takes from a deck cut down to n cards, in pop order: the deck's last cards, reversed |
| TwentyOneProcedural.Draw | twenty_one-procedural.rb:199-205 | one `pop` onto a hand extends the hand by the next popped card and keeps the hand equal to its start plus the popped cards |
| TwentyOneProcedural.PlayerDraw | twenty_one-procedural.rb:199-208 | a player's hit keeps every earlier hand of the turn within 31 |
| TwentyOneProcedural.DealerDraw | twenty_one-procedural.rb:228-237 | a dealer's draw below 27 keeps every hand of the turn, this one included, below 27 |
| TwentyOneProcedural.PlayerTurn | twenty_one-procedural.rb:188-209 | TurnOutcome: the player hits while answering hit. The loop ends on stay, at the first bust, or when the deck runs out. Every hand before the last was within 31, and a turn that ended on stay or on an empty deck after a hit ends within 31. The hand is the old hand followed by the popped cards, last card of the deck first, one per hit answered. The total stays current and no card is lost |
| TwentyOneProcedural.TurnState | twenty_one-procedural.rb:188-209 | the loop invariant of the player's turn: every answer so far was hit, one card per answer, every hand of the turn within 31, total current, no card lost |
| TwentyOneProcedural.TurnOutcome | twenty_one-procedural.rb:188-209 | how the player's turn ended: on stay (the last answer), on a bust, or on an empty deck while hitting, and what the hand and the deck then hold |
| TwentyOneProcedural.PlayerStep | twenty_one-procedural.rb:189-208 | one pass of the turn loop: read one answer; either the turn ends with TurnOutcome, or a card was drawn, the deck shrank and the loop invariant holds again |
| TwentyOneProcedural.PlayerHit | twenty_one-procedural.rb:196-208 | a hit pops one card onto the hand. A bust ends the turn with TurnOutcome; otherwise the loop invariant holds with one more answer read |
| TwentyOneProcedural.StopWithoutCard | twenty_one-procedural.rb:196-208 | a stay, or a hit with no card left, ends the turn with the hand of the last pass, which is within 31 |
| TwentyOneProcedural.StopAtBust | twenty_one-procedural.rb:204-208 | a hit that busts ends the turn with every earlier hand within 31 |
| TwentyOneProcedural.NextHandWithin | twenty_one-procedural.rb:199-208 | a hit that does not bust extends the run of hands within 31 by the new hand |
| TwentyOneProcedural.LastHandWithin | twenty_one-procedural.rb:208 | when every hand of the turn is within 31, so is the last one, if the player drew at all |
| TwentyOneProcedural.DealerTurn | twenty_one-procedural.rb:227-240 | the dealer draws while below 27 and ends at 27 or more; the deck runs out only while the dealer is still below 27. Each hand drawn to was below 27. The hand is the old hand followed by the popped cards, last card of the deck first |
| TwentyOneProcedural.InitialDeal | twenty_one-procedural.rb:159-175 | two cards each, alternately from the end of a fresh shuffled deck; 48 remain and every card is somewhere. Two cards total at most 22, so neither side starts bust |
| TwentyOneProcedural.DeckValues | twenty_one-procedural.rb:3-5 | every card of the full deck has one of the thirteen values |
| TwentyOneProcedural.DealtValue | twenty_one-procedural.rb:14-16 | a card dealt from a permutation of the full deck has one of the thirteen values |
| TwentyOneProcedural.RawSumOfTwo | twenty_one-procedural.rb:34-46 | the raw sum of two cards is the sum of their points |
| TwentyOneProcedural.TwoCardsWithin | twenty_one-procedural.rb:159-175 | any two cards dealt from the deck total at most 22 and are never bust |
| TwentyOneProcedural.PopOnto | twenty_one-procedural.rb:169-172 | popping a card onto a hand keeps the cards of deck and hand together |
| TwentyOneProcedural.PlayRound | twenty_one-procedural.rb:159-259 | no card of the 52 is lost. A finished round's result is `detect_result` of the totals and scores exactly as `update_score`. Every player hand before the last was within 31, and a player who stayed is within 31. A round that ran out of cards did so on a player's hit or with the dealer still below 27. A busted player leaves the dealer on two cards; otherwise the dealer reached 27 |
| TicTacToeBoard.LinesAreOnTheBoard | tic_tac_toe-oop.rb:2-4 | every winning line uses three distinct squares 1 to 9 |
| TicTacToeOop.ThreeIdentical | tic_tac_toe-oop.rb:109-113 | `three_identical_markers?`: three equal markers, none blank. LineFilledBy states it |
| TicTacToeOop.WinnerFrom | tic_tac_toe-oop.rb:31-39 | the early-return scan of `winning_marker` from line i on. WinnerFromNone and WinnerFromSome state its result |
| TicTacToeOop.Winner | tic_tac_toe-oop.rb:31-39 | the marker `winning_marker` reports. Board.WinningMarker is proved equal to it |
| TicTacToeOop.WinnerFromNone | tic_tac_toe-oop.rb:31-39 | `winning_marker` is nil iff no line holds three identical marked squares |
| TicTacToeOop.WinnerFromSome | tic_tac_toe-oop.rb:31-39 | a winning marker is not blank, and fills the first line with three identical markers |
| TicTacToeOop.FirstUnmarked | tic_tac_toe-oop.rb:53-56 | the first unmarked square of a line, in line order |
| TicTacToeOop.FindFrom | tic_tac_toe-oop.rb:45-85 | the early-return scan of the square searches from line i on. FindFromNone, FindFromSome and FirstQualifying state its result |
| TicTacToeOop.FindFromNone | tic_tac_toe-oop.rb:45-85 | the search finds nothing iff no line has the wanted count of the marker and one unmarked square |
| TicTacToeOop.FindFromSome | tic_tac_toe-oop.rb:45-85 | a found square lies on the first qualifying line |
| TicTacToeOop.FoundSquareIsFree | tic_tac_toe-oop.rb:45-85 | a found square is a board key and unmarked |
| TicTacToeOop.QualifyingLine | tic_tac_toe-oop.rb:45-85 | on a qualifying line the two other squares are marked and hold the wanted count of the marker |
| TicTacToeOop.WinningSquareCompletesALine | tic_tac_toe-oop.rb:45-62 | marking the winning square gives the marker three in a line |
| TicTacToeOop.AtRiskSquareBlocks | tic_tac_toe-oop.rb:68-85 | with two players, the at-risk square is the one where the opponent would complete a line |
| TicTacToeOop.FirstQualifying | tic_tac_toe-oop.rb:45-85 | the found square is the first unmarked square of the first qualifying line |
| TicTacToeOop.LineFilledBy | tic_tac_toe-oop.rb:109-113 | three equal non-blank markers make a winning line |
| TicTacToeBoard.KeysHolding | tic_tac_toe-oop.rb:15-17 | the keys holding a marker, in increasing order, and no others |
| TicTacToeOop.Board.constructor | tic_tac_toe-oop.rb:6-9 | a new board has nine unmarked squares |
| TicTacToeOop.Board.Reset | tic_tac_toe-oop.rb:87-89 | every square is unmarked again, so all nine keys are free and the board is not full |
| TicTacToeOop.Board.Set | tic_tac_toe-oop.rb:11-13 | only the given square's marker changes |
| TicTacToeOop.Board.UnmarkedKeys | tic_tac_toe-oop.rb:15-17 | exactly the unmarked keys, in increasing order |
| TicTacToeOop.Board.Full | tic_tac_toe-oop.rb:19-21 | `full?`: no unmarked key. FullMeansAllMarked states it |
| TicTacToeOop.Board.FullMeansAllMarked | tic_tac_toe-oop.rb:19-21 | the board is full iff every square is marked |
| TicTacToeOop.Board.CenterUnmarked | tic_tac_toe-oop.rb:23-25 | `center_unmarked?`: square 5 is unmarked. Player.ComputerMove uses it for the third choice |
| TicTacToeOop.Board.WinningMarker | tic_tac_toe-oop.rb:31-39 | the loop returns the marker of the first line with three identical markers, or nil |
| TicTacToeOop.Board.SomeoneWon | tic_tac_toe-oop.rb:27-29 | someone won iff there is a winning marker |
| TicTacToeOop.Board.FindSquare | tic_tac_toe-oop.rb:45-85 | the loop over the winning lines returns the first qualifying line's first unmarked square |
| TicTacToeOop.Board.FindWinningSquare | tic_tac_toe-oop.rb:45-62 | the search for two of the marker and one unmarked square |
| TicTacToeOop.Board.FindAtRiskSquare | tic_tac_toe-oop.rb:68-85 | the search for none of the marker and one unmarked square |
| TicTacToeOop.Board.WinningOpportunity | tic_tac_toe-oop.rb:41-43 | true iff some line has two of the marker and one unmarked square |
| TicTacToeOop.Board.UnderRisk | tic_tac_toe-oop.rb:64-66 | true iff some line has none of the marker and one unmarked square |
| TicTacToeBoard.ResetKeys | tic_tac_toe-oop.rb:87-89 | on a blank board the unmarked keys are 1 to 9 in order |
| TicTacToeOop.Player.constructor | tic_tac_toe-oop.rb:142-145 | a player has its marker and score 0 |
| TicTacToeOop.Player.HumanMove | tic_tac_toe-oop.rb:179-191 | a valid (unmarked) square gets the player's marker, nothing else changes |
| TicTacToeOop.Player.ComputerMove | tic_tac_toe-oop.rb:222-232 | the computer marks exactly one free square: the winning square if any, else the at-risk square, else the centre if free, else any free square |
| TicTacToeOop.TTTGame.constructor | tic_tac_toe-oop.rb:242-250 | the game starts with both scores 0, the computer on 'Ø' and the first mover's marker current |
| TicTacToeOop.TTTGame.UpdateScore | tic_tac_toe-oop.rb:307-312 | the player whose marker won gains a point; no winner, no change |
| TicTacToeOop.TTTGame.WinningScoreReached | tic_tac_toe-oop.rb:314-316 | `winning_score_reached?`: a player has 3 points |
| TicTacToeOop.TTTGame.HumanTurn | tic_tac_toe-oop.rb:398-400 | `human_turn?`: the current marker is the human's. CurrentPlayerMoves uses it to pick the mover |
| TicTacToeOop.TTTGame.CurrentPlayerMoves | tic_tac_toe-oop.rb:388-400 | the current player marks one free square and the turn passes to the other marker |
| TicTacToeOop.TTTGame.Reset | tic_tac_toe-oop.rb:382-386 | an empty board and the first mover to play |
| TicTacToeBoard.OneFewerHolding | tic_tac_toe-oop.rb:15-17 | marking a free square leaves one fewer unmarked key |
| TicTacToeBoard.AscendingSetSize | tic_tac_toe-oop.rb:15-17 | a strictly increasing key list has no duplicates |
| TicTacToeOop.NextMarker | tic_tac_toe-oop.rb:388-396 | the marker that moves after the current one. TurnsAlternate states the alternation |
| TicTacToeOop.TurnAfter | tic_tac_toe-oop.rb:388-396 | the marker to move after n moves is always one of the two players' |
| TicTacToeOop.TurnsAlternate | tic_tac_toe-oop.rb:388-396 | turns alternate: after an even number of moves the first mover plays, else the other player |
| TicTacToeProcedural.MarkersDiffer | tic_tac_toe-procedural.rb:5-7 | the blank, player and computer markers are all different |
| TicTacToeProcedural.InitializeBoard | tic_tac_toe-procedural.rb:64-68 | nine blank squares, all empty and not full |
| TicTacToeProcedural.EmptySquares | tic_tac_toe-procedural.rb:70-72 | exactly the blank squares, in increasing order |
| TicTacToeProcedural.BoardFull | tic_tac_toe-procedural.rb:146-148 | `board_full?`: no empty square. BoardFullMeansNoBlank states it |
| TicTacToeProcedural.BoardFullMeansNoBlank | tic_tac_toe-procedural.rb:146-148 | the board is full iff no square is blank |
| TicTacToeProcedural.LineCount | tic_tac_toe-procedural.rb:154-163 | a line holds a marker at most three times |
| TicTacToeProcedural.ThreeOfMeansFilled | tic_tac_toe-procedural.rb:154-163 | a count of three means all three squares of the line hold the marker |
| TicTacToeProcedural.DetectWinnerFrom | tic_tac_toe-procedural.rb:154-163 | the early-return scan of `detect_winner` from line i on, the player checked first |
| TicTacToeProcedural.DetectWinner | tic_tac_toe-procedural.rb:154-163 | `detect_winner`. DetectWinnerNone and DetectWinnerSome state its result |
| TicTacToeProcedural.SomeoneWon | tic_tac_toe-procedural.rb:150-152 | `someone_won?`: `detect_winner` found a side. DetectWinnerNone states when |
| TicTacToeProcedural.DetectWinnerNone | tic_tac_toe-procedural.rb:154-163 | no winner iff no line is filled by the player or the computer |
| TicTacToeProcedural.DetectWinnerSome | tic_tac_toe-procedural.rb:154-163 | a winner is "Player" or "Computer"; the named side fills the first full line, and the player is checked first on each line |
| TicTacToeProcedural.FirstNotHolding | tic_tac_toe-procedural.rb:101-104 | the first square of the line not holding the marker lies on the line |
| TicTacToeProcedural.FindFrom | tic_tac_toe-procedural.rb:97-127 | the early-return scan shared by both searches, from line i on. FindFromSpec and FirstThreat state its result |
| TicTacToeProcedural.FindAtRiskSquare | tic_tac_toe-procedural.rb:97-109 | `find_at_risk_square`: the scan for two player marks and no computer mark. ComputerPlacesPiece states how it is used |
| TicTacToeProcedural.FindWinningOpportunity | tic_tac_toe-procedural.rb:115-127 | `find_winning_opportunity`: the scan for two computer marks and no player mark. FoundSquareCompletesALine states the win |
| TicTacToeProcedural.FindFromSpec | tic_tac_toe-procedural.rb:97-127 | the search finds nothing iff no line has two of one marker and none of the other; a found square lies on the first such line |
| TicTacToeProcedural.ThreateningLine | tic_tac_toe-procedural.rb:97-127 | on a well-marked board the square found on a threatening line is blank and the other two hold the marker |
| TicTacToeProcedural.FoundSquareCompletesALine | tic_tac_toe-procedural.rb:97-127 | the found square is blank, and the marker placed there makes three in a line |
| TicTacToeProcedural.FirstThreat | tic_tac_toe-procedural.rb:97-127 | the found square is the first square not holding the marker on the first threatening line |
| TicTacToeProcedural.Board.constructor | tic_tac_toe-procedural.rb:64-68 | a board holds the given squares |
| TicTacToeProcedural.PlayerPlacesPiece | tic_tac_toe-procedural.rb:84-95 | an empty square gets "X", and one fewer square is empty |
| TicTacToeProcedural.ComputerPlacesPiece | tic_tac_toe-procedural.rb:133-144 | the computer marks one blank square: the winning opportunity, else the at-risk square, else square 5 if free, else any empty square |
| TicTacToeProcedural.Score.constructor | tic_tac_toe-procedural.rb:10-13 | both scores start at 0 |
| TicTacToeProcedural.UpdateScore | tic_tac_toe-procedural.rb:165-170 | the detected winner gains one point; the total goes up by one iff someone won |
| TicTacToeProcedural.FiveWinsReached | tic_tac_toe-procedural.rb:172-174 | `five_wins_reached?`: a side has 5 wins. OverallWinner states the winner it implies |
| TicTacToeProcedural.OverallWinner | tic_tac_toe-procedural.rb:172-178 | a winner exists iff someone has five wins; the player is found first |
| TicTacToeProcedural.AlternatePlayer | tic_tac_toe-procedural.rb:188-194 | there is a next player iff the current one is "Player" or "Computer" |
| TicTacToeProcedural.AlternateIsAnInvolution | tic_tac_toe-procedural.rb:188-194 | the next player is the other one, and alternating twice returns to the first |
| TicTacToeProcedural.PlacePiece | tic_tac_toe-procedural.rb:180-186 | "Player" places an "X" on the chosen empty square and "Computer" places its marker on a blank square. Any other name changes nothing |
| ListFormat.NatToString | tic_tac_toe-oop.rb:198 | `to_s` of a number is a non-empty string of digits |
| ListFormat.IntToString | tic_tac_toe-procedural.rb:77 | `to_s` of an integer, the form of each key `joinor` shows. IntToStringForm states its form |
| ListFormat.IntToStringForm | tic_tac_toe-procedural.rb:77 | `to_s` of an integer is non-empty, starts with '-' exactly when the number is negative, and is digits after that sign |
| ListFormat.OrJoinFrom | tic_tac_toe-procedural.rb:74-82 | one step of the Tic-Tac-Toe `joinor` reduce and the rest of the walk. OrJoinMiddle and OrJoinPair state its output |
| ListFormat.JoinOr | tic_tac_toe-procedural.rb:74-82 | `joinor(arr, separator, joining_word)`. JoinOrShape and JoinOrExamples state its output |
| ListFormat.OrJoinMiddle | tic_tac_toe-oop.rb:195-203 | the walk over distinct elements before the last one writes them joined by the separator, then the separator and the joining word |
| ListFormat.JoinOrShape | tic_tac_toe-procedural.rb:74-82 | for distinct elements: "" for none, "a" for one, "a or b" for two, "a, b, or c" for three or more |
| ListFormat.OrJoinPair | tic_tac_toe-procedural.rb:74-82 | two distinct elements are joined by a space and the joining word, with no comma |
| ListFormat.JoinOrExamples | tic_tac_toe-oop.rb:195-203 | the prompts "1", "1 or 2" and "1, 2, or 3" |
| ListFormat.JoinAnd | twenty_one-procedural.rb:24-32 | the reduce loop gives "a" for one element. For distinct elements it gives "a and b" for two and "a, b and c" for three or more, with no comma before the joining word |
| ListFormat.AndJoinFrom | twenty_one-procedural.rb:24-32 | one step of the Twenty-One `joinor` reduce and the rest of the walk. AndJoinMiddle and JoinAnd state its output |
| ListFormat.AndJoinMiddle | twenty_one-procedural.rb:24-32 | the walk over distinct elements switches the separator to a space at the second-to-last element |

## Left out

- Console input and output: every `puts`, `prompt`, `gets` and validation loop, the welcome, board, score and result displays (`draw`, `display_*`, `to_s`, `human_readable_cards`, `grand_output`), `clear`, `sleep`, and the "play again?" loops. The human's choices and answers are parameters instead.
- The RPSLS human's name and shorthand input (`Human#choose`, `set_name`), the computer's `set_name`, and the model selection in `RPSLSGame#initialize`: these only read and check console input. The model is a constructor parameter.
- car_loan_calc.rb is not part of this model: it is not a game and shares no logic with them.
- `sample` and `shuffle` draw at random. The model picks any allowed value nondeterministically, so the contracts hold for every draw; the distribution of the draws is not modelled.
- Floating point: win percentages and DeepThought's weights are exact reals, and `to_i` on a non-negative weight is the floor. Rounding in Ruby's floats is not modelled.
- RpslsHistory.History.UpdateWinPercentages: requires at least one recorded result, as every caller in the source guarantees (it runs after a result is appended). The source would divide by zero otherwise.
- RpslsPlayers.Computer.AddToOtherMoves: requires the listed moves to be distinct, as `VALUES - [dominant]` always is.
- RpslsSimple.Win: Ruby's `win?` returns nil for an unknown name; it is modelled as false.
- TwentyOneOop.Game.PlayerTurn: requires enough cards in the deck for the player to bust. Without it Ruby's `deal` returns nil from an empty deck and the game fails when it totals the hand; the model does not follow that failure.
- TwentyOneOop.Game.DealerTurn: requires enough cards for the dealer to pass 17, for the same reason.
- TwentyOneOop.Game.DealCard: requires the deck to hold the cards dealt, for the same reason.
- TwentyOneProcedural.PlayRound: a procedural deck that runs out ends the round as `DeckExhausted` with no score change. Ruby would push nil onto the hand and fail in `total`.
- The match loops that repeat rounds until a side reaches the winning score are not modelled as loops. Each round and the winner checks (`five_wins_reached?`, `overall_winner`, `winning_score_reached?`, `grand_winner_yet?`) are.
- Tic-Tac-Toe squares are modelled as their markers, a map from key to marker, rather than as `Square` objects. Two squares never alias in the source, so nothing is lost.
- TicTacToeOop.TTTGame.constructor: requires the human's marker to be neither blank nor the computer's 'Ø'. `choose_marker` rejects a blank marker but accepts 'Ø'; with that clash the winner and turn logic would credit the wrong side, a case the model excludes.
- TicTacToeOop.Player.ComputerMove: for the random fallback, the contract states only that some free square is marked.
- TicTacToeProcedural.ComputerPlacesPiece: the same for the `sample` fallback.
- The procedural Tic-Tac-Toe computer marker is the two-character string "Ã˜" exactly as it is written in the source file.
- ListFormat.JoinOrShape: the output shape is proved only for lists without repeated elements. `joinor` compares elements with the last one by value, so a repeat of the last element places the joining word early; the functions model that behaviour exactly.
- ListFormat.JoinAnd: the shape is proved for distinct elements only, for the same reason.
