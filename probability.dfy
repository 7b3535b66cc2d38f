/**
 * Odds shown to the player: among the regular cards still in the deck, the
 * share that matches the guess by exact card, by rank, by suit and by colour.
 * Jokers are hidden from the player and never counted.
 */
module Probability {
  import opened Types
  import opened Constants
  import opened Scoring
  import opened Deck

  datatype Probabilities = Probabilities(exactCard: real, rank: real, suit: real, color: real)

  /** The four ways a remaining card can match the guess. */
  datatype Criterion = SameCard | SameRank | SameSuit | SameColor

  predicate Matches(crit: Criterion, guess: PlayerGuess, c: RegularCard)
  {
    match crit
    case SameCard => c.rank == guess.rank && c.suit == guess.suit
    case SameRank => c.rank == guess.rank
    case SameSuit => c.suit == guess.suit
    case SameColor => GetColor(c.suit) == GetColor(guess.suit)
  }

  /** The regular cards of a deck, in their order; jokers are dropped. */
  function RegularCards(d: seq<Card>): (r: seq<RegularCard>)
    ensures |r| <= |d|
  {
    if d == [] then []
    else if d[0].Regular? then [d[0]] + RegularCards(d[1..])
    else RegularCards(d[1..])
  }

  /** How many of the cards match the guess under a criterion. */
  function Count(crit: Criterion, guess: PlayerGuess, cards: seq<RegularCard>): (n: nat)
    ensures n <= |cards|
  {
    if cards == [] then 0
    else (if Matches(crit, guess, cards[0]) then 1 else 0) + Count(crit, guess, cards[1..])
  }

  /** A count over the number of cards it was taken from: a share between 0 and 1. */
  function Share(count: nat, total: nat): (r: real)
    requires count <= total && total > 0
    ensures 0.0 <= r <= 1.0
    ensures r == 0.0 <==> count == 0
    ensures r == 1.0 <==> count == total
  {
    count as real / total as real
  }

  /** The four shares of the guess among the given regular cards; all 0 when there are none. */
  function SharesOf(guess: PlayerGuess, regularCards: seq<RegularCard>): (p: Probabilities)
    ensures regularCards == [] ==> p == Probabilities(0.0, 0.0, 0.0, 0.0)
    ensures 0.0 <= p.exactCard <= 1.0 && 0.0 <= p.rank <= 1.0
    ensures 0.0 <= p.suit <= 1.0 && 0.0 <= p.color <= 1.0
  {
    var total := |regularCards|;
    if total == 0 then
      Probabilities(0.0, 0.0, 0.0, 0.0)
    else
      var exactMatches := Count(SameCard, guess, regularCards);
      var rankMatches := Count(SameRank, guess, regularCards);
      var suitMatches := Count(SameSuit, guess, regularCards);
      var colorMatches := Count(SameColor, guess, regularCards);
      Probabilities(Share(exactMatches, total), Share(rankMatches, total),
                    Share(suitMatches, total), Share(colorMatches, total))
  }

  /**
   * The odds for a guess against the remaining deck: the shares among its
   * regular cards only. With no regular card left all four values are 0,
   * and every value lies between 0 and 1.
   */
  function CalculateProbabilities(guess: PlayerGuess, remainingDeck: seq<Card>): (p: Probabilities)
    ensures RegularCards(remainingDeck) == [] ==> p == Probabilities(0.0, 0.0, 0.0, 0.0)
    ensures 0.0 <= p.exactCard <= 1.0 && 0.0 <= p.rank <= 1.0
    ensures 0.0 <= p.suit <= 1.0 && 0.0 <= p.color <= 1.0
  {
    SharesOf(guess, RegularCards(remainingDeck))
  }

  /** Filtering keeps exactly the regular cards of the deck. */
  lemma {:induction false} RegularCardsMembership(d: seq<Card>, c: Card)
    ensures c in RegularCards(d) <==> c in d && c.Regular?
  {
    if d != [] {
      RegularCardsMembership(d[1..], c);
      assert d == [d[0]] + d[1..];
    }
  }

  lemma {:induction false} RegularCardsAppend(a: seq<Card>, b: seq<Card>)
    ensures RegularCards(a + b) == RegularCards(a) + RegularCards(b)
  {
    if a == [] {
      assert a + b == b;
    } else {
      assert (a + b)[0] == a[0];
      assert (a + b)[1..] == a[1..] + b;
      RegularCardsAppend(a[1..], b);
      if a[0].Regular? {
        assert RegularCards(a + b) == [a[0]] + (RegularCards(a[1..]) + RegularCards(b));
      }
    }
  }

  /** A deck that holds only regular cards is its own filter. */
  lemma {:induction false} RegularCardsOfRegular(s: seq<RegularCard>)
    ensures RegularCards(s) == s
  {
    if s != [] {
      RegularCardsOfRegular(s[1..]);
    }
  }

  lemma {:induction false} CountAppend(crit: Criterion, guess: PlayerGuess, a: seq<RegularCard>, b: seq<RegularCard>)
    ensures Count(crit, guess, a + b) == Count(crit, guess, a) + Count(crit, guess, b)
  {
    if a == [] {
      assert a + b == b;
    } else {
      assert (a + b)[0] == a[0];
      assert (a + b)[1..] == a[1..] + b;
      CountAppend(crit, guess, a[1..], b);
    }
  }

  /** Removing the jokers from the deck changes none of the four values. */
  lemma JokersIgnored(guess: PlayerGuess, d: seq<Card>)
    ensures CalculateProbabilities(guess, d) == CalculateProbabilities(guess, RegularCards(d))
  {
    RegularCardsOfRegular(RegularCards(d));
  }

  /** Inserting a joker anywhere in the deck changes none of the four values. */
  lemma JokerInsertionIgnored(guess: PlayerGuess, a: seq<Card>, j: JokerCard, b: seq<Card>)
    ensures CalculateProbabilities(guess, a + [j] + b) == CalculateProbabilities(guess, a + b)
  {
    RegularCardsAppend(a + [j], b);
    RegularCardsAppend(a, [j]);
    RegularCardsAppend(a, b);
    assert RegularCards([j]) == [];
    assert RegularCards(a + [j] + b) == RegularCards(a + b);
  }

  /** A criterion that implies another never counts more cards. */
  lemma {:induction false} CountImplies(c1: Criterion, c2: Criterion, guess: PlayerGuess, cards: seq<RegularCard>)
    requires forall c: RegularCard :: Matches(c1, guess, c) ==> Matches(c2, guess, c)
    ensures Count(c1, guess, cards) <= Count(c2, guess, cards)
  {
    if cards != [] {
      CountImplies(c1, c2, guess, cards[1..]);
    }
  }

  lemma DivMonotone(a: real, b: real, t: real)
    requires 0.0 <= a <= b && t > 0.0
    ensures a / t <= b / t
  {
  }

  /**
   * The values nest: the exact card is one of its rank and one of its suit,
   * and a card of the guessed suit also has the guessed colour.
   */
  lemma ProbabilitiesNest(guess: PlayerGuess, remainingDeck: seq<Card>)
    ensures var p := CalculateProbabilities(guess, remainingDeck);
      p.exactCard <= p.rank && p.exactCard <= p.suit && p.suit <= p.color
  {
    var regularCards := RegularCards(remainingDeck);
    var total := |regularCards|;
    if total > 0 {
      CountImplies(SameCard, SameRank, guess, regularCards);
      CountImplies(SameCard, SameSuit, guess, regularCards);
      CountImplies(SameSuit, SameColor, guess, regularCards);
      var e := Count(SameCard, guess, regularCards) as real;
      var r := Count(SameRank, guess, regularCards) as real;
      var s := Count(SameSuit, guess, regularCards) as real;
      var c := Count(SameColor, guess, regularCards) as real;
      DivMonotone(e, r, total as real);
      DivMonotone(e, s, total as real);
      DivMonotone(s, c, total as real);
    }
  }

  /** Counting over one suit's block of ranks. */
  lemma {:induction false} CountBlock(crit: Criterion, guess: PlayerGuess, suit: Suit, ranks: seq<Rank>)
    ensures Count(crit, guess, Block(suit, ranks)) ==
      match crit
      case SameCard => if suit == guess.suit then multiset(ranks)[guess.rank] else 0
      case SameRank => multiset(ranks)[guess.rank]
      case SameSuit => if suit == guess.suit then |ranks| else 0
      case SameColor => if GetColor(suit) == GetColor(guess.suit) then |ranks| else 0
  {
    if ranks != [] {
      var b := Block(suit, ranks);
      CountBlock(crit, guess, suit, ranks[1..]);
      assert b[0] == Regular(suit, ranks[0]) && b[1..] == Block(suit, ranks[1..]);
      assert ranks == [ranks[0]] + ranks[1..];
      assert multiset(ranks)[guess.rank] ==
        (if ranks[0] == guess.rank then 1 else 0) + multiset(ranks[1..])[guess.rank];
    }
  }

  /** A count over four consecutive suit blocks is the sum of the four block counts. */
  lemma FourBlockSum(crit: Criterion, guess: PlayerGuess, ranks: seq<Rank>)
    ensures var b0, b1, b2, b3 := Block(Spades, ranks), Block(Hearts, ranks), Block(Diamonds, ranks), Block(Clubs, ranks);
      Count(crit, guess, b0 + b1 + b2 + b3) ==
        Count(crit, guess, b0) + Count(crit, guess, b1) + Count(crit, guess, b2) + Count(crit, guess, b3)
  {
    var b0, b1, b2, b3 := Block(Spades, ranks), Block(Hearts, ranks), Block(Diamonds, ranks), Block(Clubs, ranks);
    CountAppend(crit, guess, b0 + b1 + b2, b3);
    CountAppend(crit, guess, b0 + b1, b2);
    CountAppend(crit, guess, b0, b1);
  }

  /** Counts over four suit blocks of the same distinct ranks, one block per suit. */
  lemma FourBlockCounts(guess: PlayerGuess, ranks: seq<Rank>)
    requires Distinct(ranks)
    ensures var deck := Block(Spades, ranks) + Block(Hearts, ranks) + Block(Diamonds, ranks) + Block(Clubs, ranks);
      var n := |ranks|;
      && Count(SameCard, guess, deck) == (if guess.rank in ranks then 1 else 0)
      && Count(SameRank, guess, deck) == (if guess.rank in ranks then 4 else 0)
      && Count(SameSuit, guess, deck) == n
      && Count(SameColor, guess, deck) == 2 * n
  {
    DistinctOccursOnce(ranks, guess.rank);
    FourBlockSum(SameCard, guess, ranks);
    FourBlockSum(SameRank, guess, ranks);
    FourBlockSum(SameSuit, guess, ranks);
    FourBlockSum(SameColor, guess, ranks);
    CountBlock(SameCard, guess, Spades, ranks);
    CountBlock(SameCard, guess, Hearts, ranks);
    CountBlock(SameCard, guess, Diamonds, ranks);
    CountBlock(SameCard, guess, Clubs, ranks);
    CountBlock(SameRank, guess, Spades, ranks);
    CountBlock(SameRank, guess, Hearts, ranks);
    CountBlock(SameRank, guess, Diamonds, ranks);
    CountBlock(SameRank, guess, Clubs, ranks);
    CountBlock(SameSuit, guess, Spades, ranks);
    CountBlock(SameSuit, guess, Hearts, ranks);
    CountBlock(SameSuit, guess, Diamonds, ranks);
    CountBlock(SameSuit, guess, Clubs, ranks);
    CountBlock(SameColor, guess, Spades, ranks);
    CountBlock(SameColor, guess, Hearts, ranks);
    CountBlock(SameColor, guess, Diamonds, ranks);
    CountBlock(SameColor, guess, Clubs, ranks);
  }

  /**
   * On a full regular deck of n ranks per suit (4n cards), a guess whose rank
   * belongs to the mode matches 1 card exactly, 4 by rank, n by suit and 2n by
   * colour; a rank outside the mode matches nothing by card or rank.
   */
  lemma FullDeckCounts(deckMode: DeckMode, guess: PlayerGuess)
    ensures var deck := RegularDeck(deckMode);
      var n := |RanksFor(deckMode)|;
      var inMode := guess.rank in RanksFor(deckMode);
      && Count(SameCard, guess, deck) == (if inMode then 1 else 0)
      && Count(SameRank, guess, deck) == (if inMode then 4 else 0)
      && Count(SameSuit, guess, deck) == n
      && Count(SameColor, guess, deck) == 2 * n
  {
    RanksForDistinct(deckMode);
    RegularDeckOrder(deckMode);
    FourBlockCounts(guess, RanksFor(deckMode));
  }

  /**
   * The shares of a list of 4n regular cards holding the guessed card once,
   * its rank four times, its suit n times and its colour 2n times.
   */
  lemma SharesOfFullCounts(guess: PlayerGuess, cards: seq<RegularCard>, n: nat)
    requires n > 0 && |cards| == 4 * n
    requires Count(SameCard, guess, cards) == 1 && Count(SameRank, guess, cards) == 4
    requires Count(SameSuit, guess, cards) == n && Count(SameColor, guess, cards) == 2 * n
    ensures var t := (4 * n) as real;
      CalculateProbabilities(guess, cards) == Probabilities(1.0 / t, 4.0 / t, n as real / t, (2 * n) as real / t)
  {
    RegularCardsOfRegular(cards);
  }

  /**
   * On a full deck of n ranks per suit, a guess whose rank is in the mode has
   * shares 1/4n, 4/4n, n/4n and 2n/4n.
   */
  lemma FullDeckProbabilities(deckMode: DeckMode, guess: PlayerGuess)
    requires guess.rank in RanksFor(deckMode)
    ensures var n := |RanksFor(deckMode)|; var t := (4 * n) as real;
      CalculateProbabilities(guess, RegularDeck(deckMode)) ==
        Probabilities(1.0 / t, 4.0 / t, n as real / t, (2 * n) as real / t)
  {
    FullDeckCounts(deckMode, guess);
    SharesOfFullCounts(guess, RegularDeck(deckMode), |RanksFor(deckMode)|);
  }

  /** The full-deck shares at nine ranks per suit. */
  lemma NineRankShares()
    ensures var t := (4 * 9) as real;
      Probabilities(1.0 / t, 4.0 / t, 9 as real / t, (2 * 9) as real / t) ==
      Probabilities(1.0 / 36.0, 4.0 / 36.0, 9.0 / 36.0, 18.0 / 36.0)
  {
  }

  /**
   * A full 36-card deck with a guess of a rank it holds (the ace of spades,
   * say): 1/36, 4/36, 9/36 and 18/36.
   */
  lemma FullDeckExample(guess: PlayerGuess)
    requires guess.rank in RanksFor(Deck36)
    ensures CalculateProbabilities(guess, RegularDeck(Deck36)) ==
            Probabilities(1.0 / 36.0, 4.0 / 36.0, 9.0 / 36.0, 18.0 / 36.0)
  {
    FullDeckProbabilities(Deck36, guess);
    NineRankShares();
  }

  lemma AceOfSpadesFullDeck()
    ensures CalculateProbabilities(PlayerGuess(Ace, Spades), RegularDeck(Deck36)) ==
            Probabilities(1.0 / 36.0, 4.0 / 36.0, 9.0 / 36.0, 18.0 / 36.0)
  {
    RanksForMembership(Deck36, Ace);
    FullDeckExample(PlayerGuess(Ace, Spades));
  }

  /** The deck {ace of spades, king of spades, queen of hearts} with guess ace of spades. */
  lemma SmallDeckExample()
    ensures CalculateProbabilities(PlayerGuess(Ace, Spades), [Regular(Spades, Ace), Regular(Spades, King), Regular(Hearts, Queen)]) ==
            Probabilities(1.0 / 3.0, 1.0 / 3.0, 2.0 / 3.0, 2.0 / 3.0)
  {
  }

  /** Two regular cards and two jokers: only the two regular cards are counted. */
  lemma MixedDeckExample()
    ensures CalculateProbabilities(PlayerGuess(Ace, Spades),
              [Regular(Spades, Ace), Regular(Hearts, King), Joker(RedJoker), Joker(BlackJoker)]) ==
            Probabilities(1.0 / 2.0, 1.0 / 2.0, 1.0 / 2.0, 1.0 / 2.0)
  {
  }

  /** An empty deck gives four zeros. */
  lemma EmptyDeckExample()
    ensures CalculateProbabilities(PlayerGuess(Ace, Spades), []) == Probabilities(0.0, 0.0, 0.0, 0.0)
  {
  }

  /** A deck of only a red and a black joker gives four zeros. */
  lemma JokerOnlyDeckExample()
    ensures CalculateProbabilities(PlayerGuess(Ace, Spades), [Joker(RedJoker), Joker(BlackJoker)]) == Probabilities(0.0, 0.0, 0.0, 0.0)
  {
  }
}
