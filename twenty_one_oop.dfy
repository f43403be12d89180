/**
 * The class-based Twenty-One game (twenty_one-oop.rb): a 56-card deck
 * dealt at random, hands whose total downgrades an ace only at the moment
 * it is added, a dealer who hits while at 17 or less, and a running score.
 */
module TwentyOneOop {
  import opened Wrappers

  datatype Suit = Hearts | Spades | Clubs | Diamonds

  /** A card's `value`: an integer, or a face card, or an ace. */
  datatype Rank = Number(n: nat) | Jack | Queen | King | Ace

  datatype Card = Card(suit: Suit, value: Rank)

  /** `Deck::SUITS` and `Deck::VALUES`; the values include 1 as well as the ace. */
  const Suits: seq<Suit> := [Hearts, Spades, Clubs, Diamonds]
  const Values: seq<Rank> :=
    [Number(1), Number(2), Number(3), Number(4), Number(5), Number(6), Number(7),
     Number(8), Number(9), Number(10), Jack, Queen, King, Ace]

  /** Above this total a hand is busted. */
  const BustLimit: nat := 21
  /** The dealer hits while the total is at most this. */
  const DealerStandsAbove: nat := 17

  /** `Card#determine_numeric_value`. */
  function NumericValue(r: Rank): (v: nat)
    ensures r.Number? ==> v == r.n
    ensures r == Jack || r == Queen || r == King ==> v == 10
    ensures r == Ace ==> v == 11
  {
    match r
    case Number(n) => n
    case Jack => 10
    case Queen => 10
    case King => 10
    case Ace => 11
  }

  /** Every rank of the deck is worth between 1 and 11, and only the ace is worth 11. */
  lemma ValuesWorth(r: Rank)
    requires r in Values
    ensures 1 <= NumericValue(r) <= 11
    ensures NumericValue(r) == 11 <==> r == Ace
  {
  }

  /** The deck in the order `create_deck` builds it: suit by suit, value by value. */
  function FullDeck(): seq<Card> {
    seq(|Suits| * |Values|, k requires 0 <= k < |Suits| * |Values| =>
      Card(Suits[k / |Values|], Values[k % |Values|]))
  }

  /** The prefix of the full deck grows by the card of suit `i` and value `j`. */
  lemma FullDeckPrefixStep(i: nat, j: nat)
    requires i < |Suits| && j < |Values|
    ensures 14 * i + j + 1 <= |FullDeck()|
    ensures FullDeck()[..14 * i + j + 1] == FullDeck()[..14 * i + j] + [Card(Suits[i], Values[j])]
  {
    FullDeckAt(i, j);
    PrefixGrows(FullDeck(), 14 * i + j);
  }

  lemma PrefixGrows<T>(s: seq<T>, n: nat)
    requires n < |s|
    ensures s[..n + 1] == s[..n] + [s[n]]
  {
  }

  lemma FullDeckAt(i: nat, j: nat)
    requires i < |Suits| && j < |Values|
    ensures 14 * i + j < |FullDeck()|
    ensures FullDeck()[14 * i + j] == Card(Suits[i], Values[j])
  {
    assert (14 * i + j) / 14 == i && (14 * i + j) % 14 == j;
  }

  predicate Distinct(cards: seq<Card>) {
    forall i, j :: 0 <= i < j < |cards| ==> cards[i] != cards[j]
  }

  /** Every card carries one of the deck's values. */
  predicate AllValid(cards: seq<Card>) {
    forall c :: c in cards ==> c.value in Values
  }

  /**
   * The full deck has 4 x 14 = 56 cards, no two alike, holding every
   * suit with every value.
   */
  lemma FullDeckShape()
    ensures |FullDeck()| == 56
    ensures Distinct(FullDeck()) && AllValid(FullDeck())
    ensures forall s: Suit, v :: v in Values ==> Card(s, v) in FullDeck()
  {
    var d := FullDeck();
    forall i, j | 0 <= i < j < |d| ensures d[i] != d[j] {
      if i / 14 == j / 14 {
        assert i % 14 != j % 14;
      }
    }
    forall s: Suit, v | v in Values ensures Card(s, v) in d {
      var si :| 0 <= si < 4 && Suits[si] == s by {
        match s
        case Hearts => assert Suits[0] == s;
        case Spades => assert Suits[1] == s;
        case Clubs => assert Suits[2] == s;
        case Diamonds => assert Suits[3] == s;
      }
      var vi :| 0 <= vi < 14 && Values[vi] == v;
      FullDeckAt(si, vi);
    }
  }

  /** One card of `cards_total`'s loop: add its value, then downgrade an ace if that busts. */
  function AddCard(total: nat, c: Card): nat {
    var t := total + NumericValue(c.value);
    if NumericValue(c.value) == 11 && t > BustLimit then t - 10 else t
  }

  /** The running total after adding `cards` in order to `total`. */
  function TotalFrom(total: nat, cards: seq<Card>): nat
    decreases |cards|
  {
    if cards == [] then total else TotalFrom(AddCard(total, cards[0]), cards[1..])
  }

  /** `Participant#cards_total`, as a function of the hand. */
  function HandTotal(cards: seq<Card>): nat {
    TotalFrom(0, cards)
  }

  /** Adding a card at the end of a hand is one more step of the loop. */
  lemma {:induction false} TotalFromAppend(total: nat, cards: seq<Card>, c: Card)
    ensures TotalFrom(total, cards + [c]) == AddCard(TotalFrom(total, cards), c)
    decreases |cards|
  {
    if cards == [] {
      assert (cards + [c])[1..] == [];
    } else {
      assert (cards + [c])[1..] == cards[1..] + [c];
      TotalFromAppend(AddCard(total, cards[0]), cards[1..], c);
    }
  }

  /**
   * Appending a card raises the total by its value, or by 1 for an ace
   * that would otherwise bust; so every new card raises the total.
   */
  lemma HandTotalAppend(cards: seq<Card>, c: Card)
    requires c.value in Values
    ensures var before := HandTotal(cards);
      HandTotal(cards + [c]) ==
        if c.value == Ace && before + 11 > BustLimit then before + 1
        else before + NumericValue(c.value)
    ensures HandTotal(cards + [c]) > HandTotal(cards)
  {
    TotalFromAppend(0, cards, c);
    ValuesWorth(c.value);
  }

  /** A hand of valid cards totals at least one per card. */
  lemma {:induction false} HandTotalAtLeastSize(cards: seq<Card>)
    requires AllValid(cards)
    ensures HandTotal(cards) >= |cards|
    decreases |cards|
  {
    if cards != [] {
      var init := cards[..|cards| - 1];
      assert cards == init + [cards[|cards| - 1]];
      HandTotalAtLeastSize(init);
      HandTotalAppend(init, cards[|cards| - 1]);
    }
  }

  /** The total depends on card order: an early ace is never downgraded. */
  lemma TotalDependsOnOrder()
    ensures HandTotal([Card(Hearts, Ace), Card(Hearts, Number(9)), Card(Hearts, Number(5))]) == 25
    ensures HandTotal([Card(Hearts, Number(9)), Card(Hearts, Number(5)), Card(Hearts, Ace)]) == 15
  {
    var a, n9, n5 := Card(Hearts, Ace), Card(Hearts, Number(9)), Card(Hearts, Number(5));
    HandTotalAppend([a], n9);
    assert [a] + [n9] == [a, n9];
    HandTotalAppend([a, n9], n5);
    assert [a, n9] + [n5] == [a, n9, n5];
    HandTotalAppend([n9], n5);
    assert [n9] + [n5] == [n9, n5];
    HandTotalAppend([n9, n5], a);
    assert [n9, n5] + [a] == [n9, n5, a];
  }

  /** `Deck`: the cards not yet dealt. */
  class Deck {
    var cards: seq<Card>

    ghost predicate Valid()
      reads this
    {
      Distinct(cards) && AllValid(cards)
    }

    constructor()
      ensures cards == FullDeck() && Valid()
    {
      var full := CreateDeck();
      cards := full;
      FullDeckShape();
    }

    /** `Deck#reset`. */
    method Reset()
      modifies this
      ensures cards == FullDeck() && Valid()
    {
      cards := CreateDeck();
      FullDeckShape();
    }

    /** `Deck#create_deck`: one card per suit and value, suit by suit. */
    static method CreateDeck() returns (cards: seq<Card>)
      ensures cards == FullDeck()
    {
      cards := [];
      for i := 0 to |Suits|
        invariant cards == FullDeck()[..14 * i]
      {
        for j := 0 to |Values|
          invariant cards == FullDeck()[..14 * i + j]
        {
          FullDeckPrefixStep(i, j);
          cards := cards + [Card(Suits[i], Values[j])];
        }
      }
      assert FullDeck()[..14 * |Suits|] == FullDeck();
    }

    /**
     * `Deck#deal`: remove a card picked at random and hand it over; nil
     * when the deck is empty.  Cards are compared by identity, so exactly
     * the picked card leaves the deck.
     */
    method Deal() returns (dealt: Option<Card>)
      requires Valid()
      modifies this
      ensures Valid()
      ensures old(cards) == [] ==> dealt == None && cards == []
      ensures old(cards) != [] ==>
        dealt.Some? &&
        (exists i :: 0 <= i < |old(cards)| && old(cards)[i] == dealt.value &&
          cards == old(cards)[..i] + old(cards)[i + 1..])
      ensures dealt.Some? ==>
        dealt.value in old(cards) && dealt.value !in cards &&
        multiset(cards) + multiset{dealt.value} == multiset(old(cards))
    {
      if cards == [] {
        return None;
      }
      var i :| 0 <= i < |cards|;
      var c := cards[i];
      assert cards == cards[..i] + [c] + cards[i + 1..];
      cards := cards[..i] + cards[i + 1..];
      dealt := Some(c);
      forall k | 0 <= k < |cards| ensures cards[k] != c {
        if k < i {
          assert cards[k] == old(cards)[k];
        } else {
          assert cards[k] == old(cards)[k + 1];
        }
      }
    }
  }

  /** `Participant`: a hand of cards and a score. */
  class Participant {
    var cards: seq<Card>
    var score: nat

    constructor()
      ensures cards == [] && score == 0
    {
      cards := [];
      score := 0;
    }

    /** `Participant#cards_total`: the running total, card by card. */
    method CardsTotal() returns (total: nat)
      ensures total == HandTotal(cards)
    {
      total := 0;
      for i := 0 to |cards|
        invariant total == HandTotal(cards[..i])
      {
        TotalFromAppend(0, cards[..i], cards[i]);
        assert cards[..i + 1] == cards[..i] + [cards[i]];
        var v := NumericValue(cards[i].value);
        total := total + v;
        if v == 11 && total > BustLimit {
          total := total - 10;
        }
      }
      assert cards[..|cards|] == cards;
    }

    /** `Participant#busted?`. */
    method Busted() returns (b: bool)
      ensures b <==> HandTotal(cards) > BustLimit
    {
      var total := CardsTotal();
      b := total > BustLimit;
    }

    /** `Participant#reset_cards`. */
    method ResetCards()
      modifies this`cards
      ensures cards == []
    {
      cards := [];
    }
  }

  datatype Side = PlayerSide | DealerSide | Nobody

  /**
   * Who `update_score` credits, given the two totals: a busted player
   * loses even when the dealer busts too, a busted dealer loses to a
   * standing player, and otherwise the higher total wins.
   */
  function Credited(playerTotal: nat, dealerTotal: nat): (s: Side)
    ensures s == PlayerSide <==>
      playerTotal <= BustLimit && (dealerTotal > BustLimit || playerTotal > dealerTotal)
    ensures s == DealerSide <==>
      playerTotal > BustLimit || (dealerTotal <= BustLimit && dealerTotal > playerTotal)
    ensures s == Nobody <==>
      playerTotal <= BustLimit && dealerTotal <= BustLimit && playerTotal == dealerTotal
  {
    if playerTotal > BustLimit then DealerSide
    else if dealerTotal > BustLimit then PlayerSide
    else if dealerTotal > playerTotal then DealerSide
    else if playerTotal > dealerTotal then PlayerSide
    else Nobody
  }

  /** Moving a card from the deck to a hand keeps the cards of both together. */
  lemma MoveKeepsCards(deck: seq<Card>, deck': seq<Card>, hand: seq<Card>, c: Card)
    requires multiset(deck') + multiset{c} == multiset(deck)
    requires AllValid(deck) && AllValid(hand)
    ensures multiset(deck') + multiset(hand + [c]) == multiset(deck) + multiset(hand)
    ensures AllValid(hand + [c])
  {
    assert c in multiset(deck);
  }

  /**
   * When a hand grows by one card and every hand it passed through from
   * length `from` on, itself included, stayed within `limit`, then so did
   * every hand of length `from` or more the longer one passed through.
   */
  lemma HandGrewByOne(before: seq<Card>, after: seq<Card>, from: nat, limit: nat)
    requires |after| == |before| + 1 && after[..|before|] == before
    requires from <= |before| + 1 && (from <= |before| ==> HandTotal(before) <= limit)
    requires forall k :: from <= k < |before| ==> HandTotal(before[..k]) <= limit
    ensures forall k :: from <= k < |after| ==> HandTotal(after[..k]) <= limit
  {
    forall k | from <= k < |after| ensures HandTotal(after[..k]) <= limit {
      if k < |before| {
        assert after[..k] == before[..k];
      }
    }
  }

  /** `Game`: one deck, the player and the dealer. */
  class Game {
    const deck: Deck
    const player: Participant
    const dealer: Participant

    /**
     * The hands and the deck always hold the 56 cards of a full deck
     * between them, each exactly once.
     */
    ghost predicate Valid()
      reads this, deck, player, dealer
    {
      player != dealer &&
      deck.Valid() && AllValid(player.cards) && AllValid(dealer.cards) &&
      multiset(deck.cards) + multiset(player.cards) + multiset(dealer.cards) == multiset(FullDeck())
    }

    constructor()
      ensures Valid()
      ensures deck.cards == FullDeck() && player.cards == [] && dealer.cards == []
      ensures player.score == 0 && dealer.score == 0
    {
      deck := new Deck();
      player := new Participant();
      dealer := new Participant();
    }

    /** `Game#deal_card`: move `count` cards, one at a time, from the deck to a hand. */
    method DealCard(receiver: Participant, count: nat)
      requires Valid() && (receiver == player || receiver == dealer)
      requires count <= |deck.cards|
      modifies deck, receiver`cards
      ensures Valid()
      ensures |receiver.cards| == |old(receiver.cards)| + count
      ensures receiver.cards[..|old(receiver.cards)|] == old(receiver.cards)
      ensures |deck.cards| == |old(deck.cards)| - count
    {
      for k := 0 to count
        invariant Valid()
        invariant |receiver.cards| == |old(receiver.cards)| + k
        invariant receiver.cards[..|old(receiver.cards)|] == old(receiver.cards)
        invariant |deck.cards| == |old(deck.cards)| - k
      {
        ghost var deckBefore, handBefore := deck.cards, receiver.cards;
        var dealt := deck.Deal();
        receiver.cards := receiver.cards + [dealt.value];
        MoveKeepsCards(deckBefore, deck.cards, handBefore, dealt.value);
        assert receiver.cards[..|handBefore|] == handBefore;
      }
    }

    /**
     * One hit of `player_turn`: a card moves from the deck onto the
     * player's hand, and every hand total from `from` cards on, below the
     * new size, is still within the limit.
     */
    method PlayerHit(ghost from: nat)
      requires Valid() && |deck.cards| > 0
      requires 1 <= from <= |player.cards| + 1
      requires forall k :: from <= k <= |player.cards| ==> HandTotal(player.cards[..k]) <= BustLimit
      modifies deck, player`cards
      ensures Valid()
      ensures |player.cards| == |old(player.cards)| + 1
      ensures player.cards[..|old(player.cards)|] == old(player.cards)
      ensures |deck.cards| == |old(deck.cards)| - 1
      ensures forall k :: from <= k < |player.cards| ==> HandTotal(player.cards[..k]) <= BustLimit
    {
      ghost var before := player.cards;
      assert from <= |before| ==> before[..|before|] == before;
      DealCard(player, 1);
      HandGrewByOne(before, player.cards, from, BustLimit);
    }

    /**
     * The non-console part of `Game#player_turn`: read answers in turn;
     * stop at a stay, otherwise take a card and stop if it busts.  Returns
     * how many answers were read.  A player who keeps hitting busts within
     * 22 cards, so the deck must hold enough cards for that; the source
     * fails on the nil an empty deck deals.
     */
    method PlayerTurn(answers: nat -> Answer) returns (read: nat)
      requires Valid() && |deck.cards| > 0 && |player.cards| + |deck.cards| > BustLimit
      modifies deck, player`cards
      ensures Valid()
      ensures read >= 1 && forall k :: 0 <= k < read - 1 ==> answers(k) == Hit
      ensures |player.cards| >= |old(player.cards)|
      ensures player.cards[..|old(player.cards)|] == old(player.cards)
      ensures answers(read - 1) == Stay ==>
        |player.cards| == |old(player.cards)| + read - 1 &&
        forall k :: |old(player.cards)| < k <= |player.cards| ==>
          HandTotal(player.cards[..k]) <= BustLimit
      ensures answers(read - 1) == Hit ==>
        |player.cards| == |old(player.cards)| + read &&
        HandTotal(player.cards) > BustLimit &&
        forall k :: |old(player.cards)| < k < |player.cards| ==>
          HandTotal(player.cards[..k]) <= BustLimit
    {
      read := 0;
      while true
        invariant Valid() && |player.cards| + |deck.cards| > BustLimit
        invariant forall k :: 0 <= k < read ==> answers(k) == Hit
        invariant |player.cards| == |old(player.cards)| + read
        invariant player.cards[..|old(player.cards)|] == old(player.cards)
        invariant forall k :: |old(player.cards)| < k <= |player.cards| ==>
          HandTotal(player.cards[..k]) <= BustLimit
        invariant |deck.cards| > 0
        decreases |deck.cards|
      {
        var answer := answers(read);
        read := read + 1;
        if answer == Stay {
          return;
        }
        PlayerHit(|old(player.cards)| + 1);
        var b := player.Busted();
        if b {
          return;
        }
        assert player.cards[..|player.cards|] == player.cards;
        HandTotalAtLeastSize(player.cards);
      }
    }

    /**
     * `Game#dealer_turn`: the dealer hits while the total is at most 17.
     * Every card raises the total, so 18 cards at hand are enough.
     */
    method DealerTurn()
      requires Valid() && |dealer.cards| + |deck.cards| > DealerStandsAbove
      modifies deck, dealer`cards
      ensures Valid()
      ensures HandTotal(dealer.cards) > DealerStandsAbove
      ensures |dealer.cards| >= |old(dealer.cards)|
      ensures dealer.cards[..|old(dealer.cards)|] == old(dealer.cards)
      ensures forall k :: |old(dealer.cards)| <= k < |dealer.cards| ==>
        HandTotal(dealer.cards[..k]) <= DealerStandsAbove
    {
      var total := dealer.CardsTotal();
      while total <= DealerStandsAbove
        invariant Valid() && |dealer.cards| + |deck.cards| > DealerStandsAbove
        invariant total == HandTotal(dealer.cards)
        invariant |dealer.cards| >= |old(dealer.cards)|
        invariant dealer.cards[..|old(dealer.cards)|] == old(dealer.cards)
        invariant forall k :: |old(dealer.cards)| <= k < |dealer.cards| ==>
          HandTotal(dealer.cards[..k]) <= DealerStandsAbove
        decreases |deck.cards|
      {
        HandTotalAtLeastSize(dealer.cards);
        ghost var before := dealer.cards;
        DealCard(dealer, 1);
        HandGrewByOne(before, dealer.cards, |old(dealer.cards)|, DealerStandsAbove);
        total := dealer.CardsTotal();
      }
    }

    /** `Game#update_score`: one point to the credited side, none on a tie. */
    method UpdateScore()
      requires player != dealer
      modifies player`score, dealer`score
      ensures var s := Credited(HandTotal(player.cards), HandTotal(dealer.cards));
        player.score == old(player.score) + (if s == PlayerSide then 1 else 0) &&
        dealer.score == old(dealer.score) + (if s == DealerSide then 1 else 0)
    {
      var playerTotal := player.CardsTotal();
      var dealerTotal := dealer.CardsTotal();
      var playerBusted := player.Busted();
      var dealerBusted := dealer.Busted();
      if playerBusted {
        dealer.score := dealer.score + 1;
      } else if dealerBusted {
        player.score := player.score + 1;
      } else if dealerTotal > playerTotal {
        dealer.score := dealer.score + 1;
      } else if playerTotal > dealerTotal {
        player.score := player.score + 1;
      }
    }

    /**
     * `Game#show_result`, with the message replaced by the side it
     * announces.  It tests the two totals in the other order from
     * `update_score`, yet always announces the side that is credited.
     */
    method ShowResult() returns (announced: Side)
      ensures announced == Credited(HandTotal(player.cards), HandTotal(dealer.cards))
    {
      var playerTotal := player.CardsTotal();
      var dealerTotal := dealer.CardsTotal();
      var playerBusted := player.Busted();
      var dealerBusted := dealer.Busted();
      if playerBusted {
        announced := DealerSide;
      } else if dealerBusted {
        announced := PlayerSide;
      } else if playerTotal > dealerTotal {
        announced := PlayerSide;
      } else if dealerTotal > playerTotal {
        announced := DealerSide;
      } else {
        announced := Nobody;
      }
    }

    /**
     * One round of `Game#start`: two cards each, the player's turn, the
     * dealer's turn unless the player busted, then the result is announced
     * and scored.  A round starts from empty hands and a full deck.
     */
    method PlayRound(answers: nat -> Answer) returns (result: Side)
      requires Valid() && player.cards == [] && dealer.cards == []
      modifies deck, player, dealer
      ensures Valid()
      ensures result == Credited(HandTotal(player.cards), HandTotal(dealer.cards))
      ensures player.score == old(player.score) + (if result == PlayerSide then 1 else 0)
      ensures dealer.score == old(dealer.score) + (if result == DealerSide then 1 else 0)
      ensures HandTotal(player.cards) > BustLimit ==> |dealer.cards| == 2
      ensures HandTotal(player.cards) <= BustLimit ==> HandTotal(dealer.cards) > DealerStandsAbove
    {
      FullDeckShape();
      assert |deck.cards| == 56 by {
        assert |multiset(deck.cards)| == |multiset(FullDeck())|;
      }
      DealCard(player, 2);
      DealCard(dealer, 2);
      var answersRead := PlayerTurn(answers);
      var busted := player.Busted();
      if !busted {
        HandTotalAtLeastSize(player.cards);
        assert |deck.cards| + |player.cards| + |dealer.cards| == 56 by {
          assert |multiset(deck.cards) + multiset(player.cards) + multiset(dealer.cards)|
            == |multiset(FullDeck())|;
        }
        DealerTurn();
      }
      result := ShowResult();
      UpdateScore();
    }

    /** `Game#reset`: a fresh full deck and empty hands; scores are kept. */
    method Reset()
      requires player != dealer
      modifies deck, player`cards, dealer`cards
      ensures Valid()
      ensures deck.cards == FullDeck() && player.cards == [] && dealer.cards == []
    {
      deck.Reset();
      player.ResetCards();
      dealer.ResetCards();
    }
  }

  /** A validated hit-or-stay answer. */
  datatype Answer = Hit | Stay
}
