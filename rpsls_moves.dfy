/**
 * The five moves of Rock-Paper-Scissors-Lizard-Spock and the dominance
 * relation that the class version expresses as `>` and `<` on the
 * `Move` subclasses (rock_paper_scissors_lizard_spock_procedural.rb).
 */
module RpslsMoves {

  datatype Move = Rock | Paper | Scissors | Lizard | Spock

  /** `Move::VALUES`, in the order the source enumerates them. */
  const Values: seq<Move> := [Rock, Paper, Scissors, Lizard, Spock]

  const AllMoves: set<Move> := {Rock, Paper, Scissors, Lizard, Spock}

  /** `a > b`: the method `>` of a's class, asked about b. */
  predicate Beats(a: Move, b: Move) {
    match a
    case Rock => b == Scissors || b == Lizard
    case Paper => b == Rock || b == Spock
    case Scissors => b == Paper || b == Lizard
    case Lizard => b == Paper || b == Spock
    case Spock => b == Rock || b == Scissors
  }

  /** `a < b`: the method `<` of a's class, written separately in the source. */
  predicate LosesTo(a: Move, b: Move) {
    match a
    case Rock => b == Paper || b == Spock
    case Paper => b == Lizard || b == Scissors
    case Scissors => b == Rock || b == Spock
    case Lizard => b == Rock || b == Scissors
    case Spock => b == Paper || b == Lizard
  }

  /** The moves a beats, as a set: exactly those b with `a > b`. */
  function Victims(a: Move): (s: set<Move>)
    ensures forall b :: b in s <==> Beats(a, b)
  {
    match a
    case Rock => {Scissors, Lizard}
    case Paper => {Rock, Spock}
    case Scissors => {Paper, Lizard}
    case Lizard => {Paper, Spock}
    case Spock => {Rock, Scissors}
  }

  /** The moves a loses to, as a set: exactly those b with `a < b`. */
  function Conquerors(a: Move): (s: set<Move>)
    ensures forall b :: b in s <==> LosesTo(a, b)
  {
    match a
    case Rock => {Paper, Spock}
    case Paper => {Lizard, Scissors}
    case Scissors => {Rock, Spock}
    case Lizard => {Rock, Scissors}
    case Spock => {Paper, Lizard}
  }

  lemma ValuesEnumerateAllMoves()
    ensures |Values| == 5
    ensures forall m: Move :: m in Values && m in AllMoves
    ensures forall i, j :: 0 <= i < j < |Values| ==> Values[i] != Values[j]
  {
    forall m: Move ensures m in Values && m in AllMoves {
      match m
      case Rock => assert Values[0] == m;
      case Paper => assert Values[1] == m;
      case Scissors => assert Values[2] == m;
      case Lizard => assert Values[3] == m;
      case Spock => assert Values[4] == m;
    }
  }

  /** No move is `>` or `<` itself. */
  lemma Irreflexive(a: Move)
    ensures !Beats(a, a) && !LosesTo(a, a)
  {
  }

  /** `a > b` holds exactly when `b < a`: the two hand-written tables agree. */
  lemma BeatsIsConverseOfLosesTo(a: Move, b: Move)
    ensures Beats(a, b) <==> LosesTo(b, a)
  {
  }

  /** For distinct moves exactly one of `a > b`, `a < b` holds. */
  lemma Tournament(a: Move, b: Move)
    requires a != b
    ensures Beats(a, b) != LosesTo(a, b)
    ensures Beats(a, b) != Beats(b, a)
  {
  }

  /** Every move beats exactly two moves and loses to exactly two. */
  lemma TwoVictimsTwoConquerors(a: Move)
    ensures |Victims(a)| == 2 && |Conquerors(a)| == 2
    ensures Victims(a) !! Conquerors(a) && a !in Victims(a) + Conquerors(a)
  {
  }
}
