/**
 * The script version of Twenty-One played to 31 (twenty_one-procedural.rb):
 * a shuffled 52-card deck dealt from its end, totals in which aces are
 * downgraded after summing, a dealer who stops at 27, and a running score.
 */
module TwentyOneProcedural {
  import opened Wrappers

  /** A card is a `[suit, value]` pair of strings. */
  datatype Card = Card(suit: string, value: string)

  const Suits: seq<string> := ["Hearts", "Diamonds", "Spades", "Clubs"]
  const Values: seq<string> :=
    ["2", "3", "4", "5", "6", "7", "8", "9", "10", "Jack", "Queen", "King", "Ace"]

  /** `WINNING_VALUE`: above it a hand is busted. */
  const WinningValue: int := 31
  /** `DEALER_THRESHOLD`: the dealer stops drawing at this total. */
  const DealerThreshold: int := WinningValue - 4
  /** The first side to reach this many points wins the match. */
  const WinsNeeded: nat := 5

  /** The leading decimal digits of a string. */
  function LeadingDigits(s: string): (d: string)
    ensures |d| <= |s| && d == s[..|d|]
    ensures forall i :: 0 <= i < |d| ==> '0' <= d[i] <= '9'
  {
    if s != [] && '0' <= s[0] <= '9' then [s[0]] + LeadingDigits(s[1..]) else []
  }

  function DigitsValue(d: string): nat
    requires forall i :: 0 <= i < |d| ==> '0' <= d[i] <= '9'
  {
    if d == [] then 0
    else DigitsValue(d[..|d| - 1]) * 10 + (d[|d| - 1] as int - '0' as int)
  }

  /** Ruby's `String#to_i` on strings without sign or leading blanks: the leading digits' value, 0 if none. */
  function ToI(s: string): nat {
    DigitsValue(LeadingDigits(s))
  }

  /** What one value adds to the sum in `total`: an ace 11, a word 10, a numeral its face value. */
  function CardPoints(value: string): nat {
    if value == "Ace" then 11
    else if ToI(value) == 0 then 10
    else ToI(value)
  }

  /** A one-digit numeral is worth its digit. */
  lemma DigitPoints(c: char)
    requires '1' <= c <= '9'
    ensures CardPoints([c]) == c as int - '0' as int
  {
    assert LeadingDigits([c]) == [c] by {
      assert [c][1..] == [];
    }
    assert DigitsValue([c]) == c as int - '0' as int by {
      assert [c][..0] == [];
    }
    assert [c] != "Ace" by {
      assert |[c]| != |"Ace"|;
    }
  }

  lemma TenPoints()
    ensures CardPoints("10") == 10
  {
    assert LeadingDigits("10") == "10" by {
      assert "10"[1..] == "0";
      assert "0"[1..] == [];
    }
    assert DigitsValue("10") == 10 by {
      assert "10"[..1] == "1";
      assert "1"[..0] == [];
    }
  }

  /** A value that does not start with a digit and is not the ace is worth 10. */
  lemma WordPoints(w: string)
    requires w != [] && !('0' <= w[0] <= '9') && w != "Ace"
    ensures CardPoints(w) == 10
  {
  }

  /** The points of every value of the deck: numerals their face value, words 10, the ace 11. */
  lemma ValuePoints(i: nat)
    requires i < |Values|
    ensures i < 9 ==> CardPoints(Values[i]) == i + 2
    ensures 9 <= i < 12 ==> CardPoints(Values[i]) == 10
    ensures i == 12 ==> CardPoints(Values[i]) == 11
  {
    if i < 8 {
      NumeralPoints(i);
    } else if i == 8 {
      TenPoints();
    } else if i < 12 {
      WordPoints(Values[i]);
    }
  }

  /** The one-digit numerals "2" to "9" of the deck, value by value. */
  lemma NumeralPoints(i: nat)
    requires i < 8
    ensures CardPoints(Values[i]) == i + 2
  {
    var c := "23456789"[i];
    assert Values[i] == [c];
    DigitPoints(c);
  }

  /** Every value of the deck is worth at least 2, and only the ace is worth 11. */
  lemma ValuePointsAtLeastTwo(v: string)
    requires v in Values
    ensures 2 <= CardPoints(v) <= 11
    ensures CardPoints(v) == 11 <==> v == "Ace"
  {
    var i :| 0 <= i < |Values| && Values[i] == v;
    ValuePoints(i);
  }

  /** The sum of f over the values of the cards. */
  function SumOver(cards: seq<Card>, f: string -> nat): nat {
    if cards == [] then 0 else SumOver(cards[..|cards| - 1], f) + f(cards[|cards| - 1].value)
  }

  function AceIndicator(value: string): nat {
    if value == "Ace" then 1 else 0
  }

  /** The sum before any ace is downgraded. */
  function RawSum(cards: seq<Card>): nat {
    SumOver(cards, CardPoints)
  }

  function AceCount(cards: seq<Card>): (n: nat)
    ensures n <= |cards|
  {
    AceCountBound(cards);
    SumOver(cards, AceIndicator)
  }

  lemma {:induction false} AceCountBound(cards: seq<Card>)
    ensures SumOver(cards, AceIndicator) <= |cards|
  {
    if cards != [] {
      AceCountBound(cards[..|cards| - 1]);
    }
  }

  /** `times` rounds of `sum -= 10 if sum > WINNING_VALUE`. */
  function Downgrade(sum: int, times: nat): int {
    if times == 0 then sum
    else Downgrade(if sum > WinningValue then sum - 10 else sum, times - 1)
  }

  /** `total`: the raw sum, then one conditional downgrade per ace. */
  function Total(cards: seq<Card>): int {
    Downgrade(RawSum(cards), AceCount(cards))
  }

  /**
   * The downgrades stop as soon as the sum is within the limit: the
   * result is the raw sum less 10 for each downgrade, never more
   * downgrades than aces, none unless needed, and all of them when the
   * result is still over the limit.
   */
  lemma {:induction false} DowngradeSpec(sum: int, times: nat)
    ensures exists d: nat :: DowngradedBy(sum, times, d)
    decreases times
  {
    if times > 0 && sum > WinningValue {
      DowngradeSpec(sum - 10, times - 1);
      var d: nat :| DowngradedBy(sum - 10, times - 1, d);
      assert DowngradedBy(sum, times, d + 1);
    } else {
      DowngradeWithinLimit(sum, times);
      assert DowngradedBy(sum, times, 0);
    }
  }

  /** `Downgrade(sum, times)` took off `d` tens, each while the sum was over the limit. */
  predicate DowngradedBy(sum: int, times: nat, d: nat) {
    && d <= times && Downgrade(sum, times) == sum - 10 * d
    && (d > 0 ==> sum - 10 * (d - 1) > WinningValue)
    && (d < times ==> sum - 10 * d <= WinningValue)
  }

  /** A sum already within the limit is left alone. */
  lemma {:induction false} DowngradeWithinLimit(sum: int, times: nat)
    requires sum <= WinningValue || times == 0
    ensures Downgrade(sum, times) == sum
    decreases times
  {
    if times > 0 {
      DowngradeWithinLimit(sum, times - 1);
    }
  }

  /**
   * What `total` promises: a raw sum within 31 is kept; otherwise aces
   * are downgraded one at a time, never more than there are and no more
   * than needed, and a total still over 31 has every ace downgraded.
   */
  lemma TotalSpec(cards: seq<Card>)
    ensures RawSum(cards) <= WinningValue ==> Total(cards) == RawSum(cards)
    ensures RawSum(cards) - 10 * AceCount(cards) <= Total(cards) <= RawSum(cards)
    ensures Total(cards) > WinningValue ==> Total(cards) == RawSum(cards) - 10 * AceCount(cards)
    ensures Total(cards) < RawSum(cards) ==> Total(cards) + 10 > WinningValue
  {
    var raw, aces := RawSum(cards), AceCount(cards);
    DowngradeSpec(raw, aces);
    var d: nat :| DowngradedBy(raw, aces, d);
    if raw <= WinningValue {
      DowngradeWithinLimit(raw, aces);
    }
  }

  /** The sum over a concatenation is the sum of the sums. */
  lemma {:induction false} SumOverConcat(a: seq<Card>, b: seq<Card>, f: string -> nat)
    ensures SumOver(a + b, f) == SumOver(a, f) + SumOver(b, f)
    decreases |b|
  {
    if b == [] {
      assert a + b == a;
    } else {
      assert (a + b)[..|a + b| - 1] == a + b[..|b| - 1];
      SumOverConcat(a, b[..|b| - 1], f);
    }
  }

  /** Taking one card out of a hand takes its value out of the sum. */
  lemma {:induction false} SumOverRemove(b: seq<Card>, i: nat, f: string -> nat)
    requires i < |b|
    ensures SumOver(b, f) == SumOver(b[..i] + b[i + 1..], f) + f(b[i].value)
    decreases |b|
  {
    var rest := b[..i] + b[i + 1..];
    if i == |b| - 1 {
      assert rest == b[..|b| - 1];
    } else {
      var init := b[..|b| - 1];
      SumOverRemove(init, i, f);
      assert rest[..|rest| - 1] == init[..i] + init[i + 1..];
      assert rest[|rest| - 1] == b[|b| - 1];
    }
  }

  lemma MultisetRemove(b: seq<Card>, i: nat)
    requires i < |b|
    ensures multiset(b[..i] + b[i + 1..]) == multiset(b) - multiset{b[i]}
  {
    assert b == b[..i] + [b[i]] + b[i + 1..];
  }

  /** A sum over the values does not depend on the order of the cards. */
  lemma {:induction false} SumOverPermutation(a: seq<Card>, b: seq<Card>, f: string -> nat)
    requires multiset(a) == multiset(b)
    ensures SumOver(a, f) == SumOver(b, f)
    decreases |a|
  {
    if a != [] {
      var last := a[|a| - 1];
      var init := a[..|a| - 1];
      assert a == init + [last];
      assert last in multiset(b);
      var i :| 0 <= i < |b| && b[i] == last;
      var rest := b[..i] + b[i + 1..];
      MultisetRemove(b, i);
      assert multiset(init) == multiset(a) - multiset{last};
      SumOverPermutation(init, rest, f);
      SumOverRemove(b, i, f);
    }
  }

  /** Unlike the class-based game, the total depends only on which cards are held. */
  lemma TotalIgnoresOrder(a: seq<Card>, b: seq<Card>)
    requires multiset(a) == multiset(b)
    ensures Total(a) == Total(b)
  {
    SumOverPermutation(a, b, CardPoints);
    SumOverPermutation(a, b, AceIndicator);
  }

  /** `total`, as the source computes it: a summing loop, then one pass per ace. */
  method ComputeTotal(cards: seq<Card>) returns (sum: int)
    ensures sum == Total(cards)
  {
    sum := 0;
    for i := 0 to |cards|
      invariant sum == RawSum(cards[..i])
    {
      assert cards[..i + 1][..i] == cards[..i];
      sum := sum + CardPoints(cards[i].value);
    }
    assert cards[..|cards|] == cards;
    var aces := AceCount(cards);
    for k := 0 to aces
      invariant Downgrade(sum, aces - k) == Total(cards)
    {
      if sum > WinningValue {
        sum := sum - 10;
      }
    }
  }

  /** `busted?`. */
  predicate Busted(total: int) {
    total > WinningValue
  }

  /** The five outcomes `detect_result` distinguishes. */
  datatype Result = PlayerBusted | DealerBusted | PlayerWins | DealerWins | Tie

  /**
   * `detect_result`: a player bust first, then a dealer bust, then the
   * larger total, else a tie.
   */
  function DetectResult(playerTotal: int, dealerTotal: int): (r: Result)
    ensures r == PlayerBusted <==> Busted(playerTotal)
    ensures r == DealerBusted <==> !Busted(playerTotal) && Busted(dealerTotal)
    ensures r == PlayerWins <==>
      !Busted(playerTotal) && !Busted(dealerTotal) && playerTotal > dealerTotal
    ensures r == DealerWins <==>
      !Busted(playerTotal) && !Busted(dealerTotal) && dealerTotal > playerTotal
    ensures r == Tie <==>
      !Busted(playerTotal) && !Busted(dealerTotal) && playerTotal == dealerTotal
  {
    if playerTotal > WinningValue then PlayerBusted
    else if dealerTotal > WinningValue then DealerBusted
    else if dealerTotal < playerTotal then PlayerWins
    else if dealerTotal > playerTotal then DealerWins
    else Tie
  }

  /** A `player` or `dealer` hash: score, cards held and their total. */
  class Participant {
    var score: nat
    var cards: seq<Card>
    var total: int

    constructor()
      ensures score == 0 && cards == [] && total == 0
    {
      score := 0;
      cards := [];
      total := 0;
    }
  }

  /**
   * `update_score`: a point to the player on a player win or a dealer
   * bust, a point to the dealer on a dealer win or a player bust, and
   * nothing on a tie.
   */
  method UpdateScore(player: Participant, dealer: Participant)
    requires player != dealer
    modifies player`score, dealer`score
    ensures var r := DetectResult(player.total, dealer.total);
      player.score == old(player.score) + (if r in {PlayerWins, DealerBusted} then 1 else 0) &&
      dealer.score == old(dealer.score) + (if r in {DealerWins, PlayerBusted} then 1 else 0)
    ensures player.score + dealer.score ==
      old(player.score + dealer.score) + (if DetectResult(player.total, dealer.total) == Tie then 0 else 1)
  {
    var winner := DetectResult(player.total, dealer.total);
    if winner in {PlayerWins, DealerBusted} {
      player.score := player.score + 1;
    } else if winner in {DealerWins, PlayerBusted} {
      dealer.score := dealer.score + 1;
    }
  }

  /** `five_wins_reached?`. */
  predicate FiveWinsReached(playerScore: nat, dealerScore: nat) {
    playerScore == WinsNeeded || dealerScore == WinsNeeded
  }

  /** `overall_winner`: the side with five wins, the player first; nil before that. */
  function OverallWinner(playerScore: nat, dealerScore: nat): (w: Option<string>)
    ensures w.Some? <==> FiveWinsReached(playerScore, dealerScore)
    ensures w == Some("Player") <==> playerScore == WinsNeeded
    ensures w == Some("Dealer") <==> playerScore != WinsNeeded && dealerScore == WinsNeeded
  {
    if playerScore == WinsNeeded then Some("Player")
    else if dealerScore == WinsNeeded then Some("Dealer")
    else None
  }

  /** `SUITS.product(VALUES)`: every suit with every value, suit by suit. */
  function FullDeck(): seq<Card> {
    seq(|Suits| * |Values|, k requires 0 <= k < |Suits| * |Values| =>
      Card(Suits[k / |Values|], Values[k % |Values|]))
  }

  /** The product holds 52 different cards, every suit with every value. */
  lemma FullDeckShape()
    ensures |FullDeck()| == 52
    ensures forall i, j :: 0 <= i < j < |FullDeck()| ==> FullDeck()[i] != FullDeck()[j]
    ensures forall s, v :: s in Suits && v in Values <==> Card(s, v) in FullDeck()
  {
    var d := FullDeck();
    forall i, j | 0 <= i < j < |d| ensures d[i] != d[j] {
      if i / 13 == j / 13 {
        assert i % 13 != j % 13;
      }
    }
    forall s, v | s in Suits && v in Values ensures Card(s, v) in d {
      var si :| 0 <= si < 4 && Suits[si] == s;
      var vi :| 0 <= vi < 13 && Values[vi] == v;
      assert (13 * si + vi) / 13 == si && (13 * si + vi) % 13 == vi;
      assert d[13 * si + vi] == Card(s, v);
    }
  }

  /** `initialize_deck`: the product in some shuffled order. */
  method InitializeDeck() returns (deck: seq<Card>)
    ensures multiset(deck) == multiset(FullDeck())
    ensures |deck| == 52
  {
    FullDeckShape();
    deck :| multiset(deck) == multiset(FullDeck());
    assert |multiset(deck)| == |multiset(FullDeck())|;
  }

  /** A validated answer to "(h)it or (s)tay?": 'h' or 's'. */
  datatype Answer = Hit | Stay

  /** How a round ends: with one of the results, or when a card is asked of an empty deck. */
  datatype RoundEnd = Finished(result: Result) | DeckExhausted

  /** `hand[:cards] << deck.pop` followed by `hand[:total] = total(hand[:cards])`. */
  method TakeCard(hand: Participant, deck: seq<Card>) returns (rest: seq<Card>)
    requires deck != []
    modifies hand`cards, hand`total
    ensures rest == deck[..|deck| - 1] && hand.cards == old(hand.cards) + [deck[|deck| - 1]]
    ensures multiset(rest) + multiset(hand.cards) == multiset(deck) + multiset(old(hand.cards))
    ensures hand.total == Total(hand.cards)
  {
    assert deck == deck[..|deck| - 1] + [deck[|deck| - 1]];
    hand.cards := hand.cards + [deck[|deck| - 1]];
    rest := deck[..|deck| - 1];
    hand.total := ComputeTotal(hand.cards);
  }

  /**
   * The player's turn (the script's lines 188-209): read an answer; on a
   * hit take a card; stop on a stay or a bust.  `answers(k)` is the k-th
   * validated answer and `read` how many were read.  A hit on an empty
   * deck stops the turn with `exhausted`.
   */
  method PlayerTurn(player: Participant, deck: seq<Card>, answers: nat -> Answer)
    returns (rest: seq<Card>, read: nat, exhausted: bool)
    modifies player`cards, player`total
    requires player.total == Total(player.cards)
    ensures TurnOutcome(old(player.cards), player.cards, player.total, rest, deck, answers, read, exhausted)
  {
    rest := deck;
    read := 0;
    ghost var start := player.cards;
    while true
      invariant TurnState(player.cards, player.total, rest, deck, start, answers, read)
      decreases |rest|
    {
      var stop;
      rest, read, stop, exhausted := PlayerStep(player, deck, rest, start, answers, read);
      if stop {
        return;
      }
    }
  }

  /**
   * Where the player's turn stands after `read` answers, all of them hits:
   * the total is current, the hand is its start plus one popped card per
   * answer, no card is lost, and every hand of the turn is within 31.
   */
  ghost predicate TurnState(cards: seq<Card>, total: int, rest: seq<Card>, deck: seq<Card>, start: seq<Card>,
                            answers: nat -> Answer, read: nat)
  {
    && total == Total(cards)
    && |rest| <= |deck| && rest == deck[..|rest|] && cards == start + Popped(deck, |rest|)
    && multiset(rest) + multiset(cards) == multiset(deck) + multiset(start)
    && (forall k :: 0 <= k < read ==> answers(k) == Hit)
    && |cards| == |start| + read
    && (forall k :: |start| < k <= |cards| ==> !Busted(Total(cards[..k])))
  }

  /**
   * How the player's turn ended, from a hand `start`, after `read` answers:
   * the total is current; the hand is `start` followed by the cards popped
   * from the deck, none lost; every answer but the last was a hit; every
   * hand before the last one was within 31; the turn stopped on a stay
   * with a hand within 31, at the first bust, or on a hit at an empty deck
   * (`exhausted`); and each hit but an exhausted one took one card.
   */
  ghost predicate TurnOutcome(start: seq<Card>, cards: seq<Card>, total: int, rest: seq<Card>, deck: seq<Card>,
                              answers: nat -> Answer, read: nat, exhausted: bool)
  {
    && total == Total(cards)
    && |rest| <= |deck| && rest == deck[..|rest|] && cards == start + Popped(deck, |rest|)
    && multiset(rest) + multiset(cards) == multiset(deck) + multiset(start)
    && read >= 1 && (forall k :: 0 <= k < read - 1 ==> answers(k) == Hit)
    && (forall k :: |start| < k < |cards| ==> !Busted(Total(cards[..k])))
    && ((exhausted || answers(read - 1) == Stay) && |cards| > |start| ==> !Busted(total))
    && (exhausted ==> rest == [] && answers(read - 1) == Hit)
    && (!exhausted ==> answers(read - 1) == Stay || Busted(total))
    && (!exhausted ==> |cards| == |start| + read - (if answers(read - 1) == Stay then 1 else 0))
  }

  /**
   * One round of the player's loop: read the next answer; on a stay stop,
   * on a hit take a card unless the deck is empty, and stop at a bust.
   * When it stops, the turn's outcome holds as `PlayerTurn` states it.
   */
  method PlayerStep(player: Participant, deck: seq<Card>, rest: seq<Card>, ghost start: seq<Card>,
                    answers: nat -> Answer, read: nat)
    returns (rest': seq<Card>, read': nat, stop: bool, exhausted: bool)
    requires TurnState(player.cards, player.total, rest, deck, start, answers, read)
    modifies player`cards, player`total
    ensures read' == read + 1
    ensures !stop ==> |rest'| < |rest| && TurnState(player.cards, player.total, rest', deck, start, answers, read')
    ensures stop ==> TurnOutcome(start, player.cards, player.total, rest', deck, answers, read', exhausted)
  {
    var answer := answers(read);
    HitsExtend(answers, read);
    read' := read + 1;
    if answer == Stay || rest == [] {
      StopWithoutCard(start, player.cards, player.total, rest, deck, answers, read);
      return rest, read', true, answer == Hit;
    }
    rest' := PlayerHit(player, deck, rest, start, answers, read);
    stop := Busted(player.total);
    exhausted := false;
  }

  /** A hit with cards left: take one; a bust ends the turn, otherwise the turn goes on. */
  method PlayerHit(player: Participant, deck: seq<Card>, rest: seq<Card>, ghost start: seq<Card>,
                   ghost answers: nat -> Answer, ghost read: nat)
    returns (rest': seq<Card>)
    requires TurnState(player.cards, player.total, rest, deck, start, answers, read)
    requires rest != [] && answers(read) == Hit
    modifies player`cards, player`total
    ensures |rest'| < |rest|
    ensures Busted(player.total) ==> TurnOutcome(start, player.cards, player.total, rest', deck, answers, read + 1, false)
    ensures !Busted(player.total) ==> TurnState(player.cards, player.total, rest', deck, start, answers, read + 1)
  {
    HitsExtend(answers, read);
    rest' := PlayerDraw(player, deck, rest, start);
    if Busted(player.total) {
      StopAtBust(start, player.cards, player.total, rest', deck, answers, read + 1);
    } else {
      NextHandWithin(player.cards, start);
    }
  }

  /** A stay, or a hit at an empty deck, ends the turn with the hand as it was. */
  lemma StopWithoutCard(start: seq<Card>, cards: seq<Card>, total: int, rest: seq<Card>, deck: seq<Card>,
                        answers: nat -> Answer, read: nat)
    requires TurnState(cards, total, rest, deck, start, answers, read)
    requires answers(read) == Stay || rest == []
    ensures TurnOutcome(start, cards, total, rest, deck, answers, read + 1, answers(read) == Hit)
  {
    LastHandWithin(cards, start);
  }

  /** A hit that busts ends the turn with the card it drew. */
  lemma StopAtBust(start: seq<Card>, cards: seq<Card>, total: int, rest: seq<Card>, deck: seq<Card>,
                   answers: nat -> Answer, read: nat)
    requires total == Total(cards) && Busted(total)
    requires |rest| <= |deck| && rest == deck[..|rest|] && cards == start + Popped(deck, |rest|)
    requires multiset(rest) + multiset(cards) == multiset(deck) + multiset(start)
    requires read >= 1 && forall k :: 0 <= k < read ==> answers(k) == Hit
    requires |cards| == |start| + read
    requires forall k :: |start| < k < |cards| ==> !Busted(Total(cards[..k]))
    ensures TurnOutcome(start, cards, total, rest, deck, answers, read, false)
  {
  }

  /** When every hand of a turn so far was within 31, so is the current one. */
  lemma LastHandWithin(cards: seq<Card>, start: seq<Card>)
    requires forall k :: |start| < k <= |cards| ==> !Busted(Total(cards[..k]))
    ensures |cards| > |start| ==> !Busted(Total(cards))
  {
    assert cards[..|cards|] == cards;
  }

  /** A current hand within 31 extends the run of hands within 31 by one. */
  lemma NextHandWithin(cards: seq<Card>, start: seq<Card>)
    requires forall k :: |start| < k < |cards| ==> !Busted(Total(cards[..k]))
    requires !Busted(Total(cards))
    ensures forall k :: |start| < k <= |cards| ==> !Busted(Total(cards[..k]))
  {
    assert cards[..|cards|] == cards;
  }

  /** A hit in the player's turn: every hand before the new one was not bust. */
  method PlayerDraw(hand: Participant, deck: seq<Card>, rest: seq<Card>, ghost start: seq<Card>) returns (rest': seq<Card>)
    requires rest != [] && |rest| <= |deck| && rest == deck[..|rest|]
    requires hand.cards == start + Popped(deck, |rest|)
    requires multiset(rest) + multiset(hand.cards) == multiset(deck) + multiset(start)
    requires forall k :: |start| < k <= |hand.cards| ==> !Busted(Total(hand.cards[..k]))
    modifies hand`cards, hand`total
    ensures |rest'| == |rest| - 1 && rest' == deck[..|rest'|]
    ensures hand.cards == old(hand.cards) + [rest[|rest| - 1]] && hand.cards == start + Popped(deck, |rest'|)
    ensures multiset(rest') + multiset(hand.cards) == multiset(deck) + multiset(start)
    ensures hand.total == Total(hand.cards)
    ensures forall k :: |start| < k < |hand.cards| ==> !Busted(Total(hand.cards[..k]))
  {
    ghost var before := hand.cards;
    assert before[..|before|] == before;
    rest' := Draw(hand, deck, rest, start);
    forall k | |start| < k < |hand.cards|
      ensures !Busted(Total(hand.cards[..k]))
    {
      assert hand.cards[..k] == before[..k];
    }
  }

  /** A run of hit answers followed by one more hit is a longer run. */
  lemma HitsExtend(answers: nat -> Answer, n: nat)
    requires forall k :: 0 <= k < n ==> answers(k) == Hit
    ensures answers(n) == Hit ==> forall k :: 0 <= k < n + 1 ==> answers(k) == Hit
  {
  }

  /** One `TakeCard` in the middle of a turn: the hand keeps holding the deck's popped tail. */
  method Draw(hand: Participant, deck: seq<Card>, rest: seq<Card>, ghost start: seq<Card>) returns (rest': seq<Card>)
    requires rest != [] && |rest| <= |deck| && rest == deck[..|rest|]
    requires hand.cards == start + Popped(deck, |rest|)
    requires multiset(rest) + multiset(hand.cards) == multiset(deck) + multiset(start)
    modifies hand`cards, hand`total
    ensures |rest'| == |rest| - 1 && rest' == deck[..|rest'|]
    ensures hand.cards == old(hand.cards) + [rest[|rest| - 1]] && hand.cards == start + Popped(deck, |rest'|)
    ensures multiset(rest') + multiset(hand.cards) == multiset(deck) + multiset(start)
    ensures hand.total == Total(hand.cards)
  {
    PoppedStep(deck, |rest|);
    rest' := TakeCard(hand, rest);
    assert hand.cards == start + (Popped(deck, |rest|) + [rest[|rest| - 1]]);
  }

  /**
   * The cards `deck.pop` hands out until `n` are left: the deck's tail
   * from its last card backwards.
   */
  function Popped(deck: seq<Card>, n: nat): (s: seq<Card>)
    requires n <= |deck|
    ensures |s| == |deck| - n && forall j :: 0 <= j < |s| ==> s[j] == deck[|deck| - 1 - j]
    decreases |deck| - n
  {
    if n == |deck| then [] else Popped(deck, n + 1) + [deck[n]]
  }

  /** One more pop appends the card now at the deck's end. */
  lemma PoppedStep(deck: seq<Card>, n: nat)
    requires 0 < n <= |deck|
    ensures Popped(deck, n - 1) == Popped(deck, n) + [deck[n - 1]]
    ensures deck[..n][..n - 1] == deck[..n - 1] && deck[..n][n - 1] == deck[n - 1]
  {
  }

  /**
   * The dealer's turn (the script's lines 227-240): draw until the total
   * reaches 27; every card is drawn while the total is below 27.  An empty
   * deck stops the turn with `exhausted`.
   */
  method DealerTurn(dealer: Participant, deck: seq<Card>) returns (rest: seq<Card>, exhausted: bool)
    modifies dealer`cards, dealer`total
    requires dealer.total == Total(dealer.cards)
    ensures dealer.total == Total(dealer.cards)
    ensures |rest| <= |deck| && rest == deck[..|rest|] && dealer.cards == old(dealer.cards) + Popped(deck, |rest|)
    ensures multiset(rest) + multiset(dealer.cards) == multiset(deck) + multiset(old(dealer.cards))
    ensures exhausted ==> rest == [] && dealer.total < DealerThreshold
    ensures !exhausted ==> dealer.total >= DealerThreshold
    ensures |dealer.cards| >= |old(dealer.cards)| && dealer.cards[..|old(dealer.cards)|] == old(dealer.cards)
    ensures forall k :: |old(dealer.cards)| <= k < |dealer.cards| ==>
      Total(dealer.cards[..k]) < DealerThreshold
  {
    rest := deck;
    exhausted := false;
    while dealer.total < DealerThreshold
      invariant dealer.total == Total(dealer.cards)
      invariant |rest| <= |deck| && rest == deck[..|rest|] && dealer.cards == old(dealer.cards) + Popped(deck, |rest|)
      invariant multiset(rest) + multiset(dealer.cards) == multiset(deck) + multiset(old(dealer.cards))
      invariant |dealer.cards| >= |old(dealer.cards)| && dealer.cards[..|old(dealer.cards)|] == old(dealer.cards)
      invariant forall k :: |old(dealer.cards)| <= k < |dealer.cards| ==>
        Total(dealer.cards[..k]) < DealerThreshold
      decreases |rest|
    {
      if rest == [] {
        return rest, true;
      }
      rest := DealerDraw(dealer, deck, rest, old(dealer.cards));
    }
  }

  /** One card of the dealer's loop: every hand drawn to, this one included, was below 27. */
  method DealerDraw(hand: Participant, deck: seq<Card>, rest: seq<Card>, ghost start: seq<Card>) returns (rest': seq<Card>)
    requires rest != [] && |rest| <= |deck| && rest == deck[..|rest|]
    requires hand.cards == start + Popped(deck, |rest|)
    requires multiset(rest) + multiset(hand.cards) == multiset(deck) + multiset(start)
    requires hand.total == Total(hand.cards) && hand.total < DealerThreshold
    requires forall k :: |start| <= k < |hand.cards| ==> Total(hand.cards[..k]) < DealerThreshold
    modifies hand`cards, hand`total
    ensures |rest'| == |rest| - 1 && rest' == deck[..|rest'|]
    ensures hand.cards == start + Popped(deck, |rest'|)
    ensures multiset(rest') + multiset(hand.cards) == multiset(deck) + multiset(start)
    ensures hand.total == Total(hand.cards)
    ensures |hand.cards| >= |start| && hand.cards[..|start|] == start
    ensures forall k :: |start| <= k < |hand.cards| ==> Total(hand.cards[..k]) < DealerThreshold
  {
    ghost var before := hand.cards;
    assert before[..|before|] == before;
    rest' := Draw(hand, deck, rest, start);
    forall k | |start| <= k < |hand.cards|
      ensures Total(hand.cards[..k]) < DealerThreshold
    {
      assert hand.cards[..k] == before[..k];
    }
  }

  /**
   * The start of a round (the script's lines 159-175): a shuffled deck,
   * emptied hands, two cards each popped from the deck's end in turn,
   * and both totals.
   */
  method InitialDeal(player: Participant, dealer: Participant) returns (deck: seq<Card>)
    requires player != dealer
    modifies player`cards, player`total, dealer`cards, dealer`total
    ensures multiset(deck) + multiset(player.cards) + multiset(dealer.cards) == multiset(FullDeck())
    ensures |deck| == 48 && |player.cards| == 2 && |dealer.cards| == 2
    ensures player.total == Total(player.cards) && dealer.total == Total(dealer.cards)
    ensures !Busted(player.total) && !Busted(dealer.total)
  {
    deck := InitializeDeck();
    player.cards := [];
    player.total := 0;
    dealer.total := 0;
    dealer.cards := [];
    for k := 0 to 2
      invariant |deck| == 52 - 2 * k
      invariant multiset(deck) + multiset(player.cards) + multiset(dealer.cards) == multiset(FullDeck())
      invariant |player.cards| == k && |dealer.cards| == k
    {
      ghost var d0, p0, q0 := deck, player.cards, dealer.cards;
      PopOnto(deck, player.cards);
      player.cards := player.cards + [deck[|deck| - 1]];
      deck := deck[..|deck| - 1];
      Regroup(multiset(deck), multiset(player.cards), multiset(d0), multiset(p0), multiset(q0));
      ghost var d1 := deck;
      PopOnto(deck, dealer.cards);
      dealer.cards := dealer.cards + [deck[|deck| - 1]];
      deck := deck[..|deck| - 1];
      Regroup(multiset(deck), multiset(dealer.cards), multiset(d1), multiset(q0), multiset(player.cards));
    }
    player.total := ComputeTotal(player.cards);
    dealer.total := ComputeTotal(dealer.cards);
    TwoCardsWithin(player.cards, multiset(deck) + multiset(dealer.cards));
    TwoCardsWithin(dealer.cards, multiset(deck) + multiset(player.cards));
  }

  /** Every card of the full deck has one of the deck's values. */
  lemma DeckValues(c: Card)
    requires c in FullDeck()
    ensures c.value in Values
  {
    var k :| 0 <= k < |FullDeck()| && FullDeck()[k] == c;
    assert c.value == Values[k % |Values|];
  }

  /** Two cards dealt from the full deck total at most 22, so they never bust. */
  lemma TwoCardsWithin(cards: seq<Card>, others: multiset<Card>)
    requires |cards| == 2 && multiset(cards) + others == multiset(FullDeck())
    ensures Total(cards) <= 22 && !Busted(Total(cards))
  {
    DealtValue(cards, others, 0);
    DealtValue(cards, others, 1);
    ValuePointsAtLeastTwo(cards[0].value);
    ValuePointsAtLeastTwo(cards[1].value);
    RawSumOfTwo(cards);
    DowngradeWithinLimit(RawSum(cards), AceCount(cards));
  }

  /** A card of a hand dealt from the full deck has one of the deck's values. */
  lemma DealtValue(cards: seq<Card>, others: multiset<Card>, i: nat)
    requires i < |cards| && multiset(cards) + others == multiset(FullDeck())
    ensures cards[i].value in Values
  {
    assert cards[i] in multiset(cards);
    assert cards[i] in multiset(FullDeck());
    DeckValues(cards[i]);
  }

  /** The raw sum of a two-card hand is the sum of its two cards' points. */
  lemma RawSumOfTwo(cards: seq<Card>)
    requires |cards| == 2
    ensures RawSum(cards) == CardPoints(cards[0].value) + CardPoints(cards[1].value)
  {
    var first := cards[..1];
    assert first[..0] == [] && first[0] == cards[0];
    assert SumOver(first, CardPoints) == CardPoints(cards[0].value);
    assert SumOver(cards, CardPoints) == SumOver(first, CardPoints) + CardPoints(cards[1].value);
  }

  /** Popping the deck's last card onto a hand keeps the cards the two hold together. */
  lemma PopOnto(deck: seq<Card>, hand: seq<Card>)
    requires deck != []
    ensures multiset(deck[..|deck| - 1]) + multiset(hand + [deck[|deck| - 1]]) == multiset(deck) + multiset(hand)
  {
    assert deck == deck[..|deck| - 1] + [deck[|deck| - 1]];
  }

  /** Cards that moved between the deck and one hand leave the three piles' union as it was. */
  lemma Regroup(deck': multiset<Card>, hand': multiset<Card>, deck: multiset<Card>, hand: multiset<Card>,
                other: multiset<Card>)
    requires deck' + hand' == deck + hand
    ensures deck' + hand' + other == deck + hand + other
    ensures deck' + other + hand' == deck + other + hand
  {
    forall x ensures (deck' + other + hand')[x] == (deck + other + hand)[x] {
      assert (deck' + hand')[x] == (deck + hand)[x];
    }
  }

  /**
   * One round of the script (its lines 159-259): the initial deal, the
   * player's turn, the dealer takes one only if the player did not bust, and
   * exactly one score update follows.  The returned deck is what is left
   * of it.  The source fails on the nil an empty deck pops; the model ends
   * the round there with `DeckExhausted` and scores nothing.
   */
  method PlayRound(player: Participant, dealer: Participant, answers: nat -> Answer)
    returns (end: RoundEnd, deck: seq<Card>, read: nat)
    requires player != dealer
    modifies player, dealer
    ensures multiset(deck) + multiset(player.cards) + multiset(dealer.cards) == multiset(FullDeck())
    ensures player.total == Total(player.cards) && dealer.total == Total(dealer.cards)
    ensures end.Finished? ==>
      && end.result == DetectResult(player.total, dealer.total)
      && read >= 1
      && (forall k :: 0 <= k < read - 1 ==> answers(k) == Hit)
      && (answers(read - 1) == Stay || Busted(player.total))
      && (answers(read - 1) == Stay ==> !Busted(player.total))
      && (forall k :: 2 < k < |player.cards| ==> !Busted(Total(player.cards[..k])))
      && (Busted(player.total) ==> |dealer.cards| == 2)
      && (!Busted(player.total) ==> dealer.total >= DealerThreshold)
      && (var r := end.result;
          player.score == old(player.score) + (if r in {PlayerWins, DealerBusted} then 1 else 0) &&
          dealer.score == old(dealer.score) + (if r in {DealerWins, PlayerBusted} then 1 else 0))
    ensures end.DeckExhausted? ==>
      && deck == [] && player.score == old(player.score) && dealer.score == old(dealer.score)
      && read >= 1 && (answers(read - 1) == Hit || dealer.total < DealerThreshold)
  {
    deck := InitialDeal(player, dealer);
    var exhausted;
    ghost var deck0, hand0 := deck, player.cards;
    deck, read, exhausted := PlayerTurn(player, deck, answers);
    if |player.cards| == |hand0| {
      assert player.cards == hand0;
    }
    Regroup(multiset(deck), multiset(player.cards), multiset(deck0), multiset(hand0), multiset(dealer.cards));
    if exhausted {
      return DeckExhausted, deck, read;
    }

    if Busted(player.total) {
      UpdateScore(player, dealer);
      return Finished(DetectResult(player.total, dealer.total)), deck, read;
    }

    deck0, hand0 := deck, dealer.cards;
    deck, exhausted := DealerTurn(dealer, deck);
    Regroup(multiset(deck), multiset(dealer.cards), multiset(deck0), multiset(hand0), multiset(player.cards));
    if exhausted {
      return DeckExhausted, deck, read;
    }

    // a dealer bust and a comparison of the totals are scored alike
    UpdateScore(player, dealer);
    end := Finished(DetectResult(player.total, dealer.total));
  }
}
