/**
 * Match resolution: the colour of a suit, the priority-ordered tier of a
 * guess against a revealed card with its base points, and the floored
 * streak multiplication.
 */
module Scoring {
  import opened Types
  import opened Constants

  /** Hearts and diamonds are red; spades and clubs are black. */
  function GetColor(suit: Suit): (c: Color)
    ensures c == Red <==> (suit == Hearts || suit == Diamonds)
    ensures c == Black <==> (suit == Spades || suit == Clubs)
  {
    match suit
    case Hearts | Diamonds => Red
    case Spades | Clubs => Black
  }

  /** Base points of a tier in a deck mode: the table entry for a hit, 0 otherwise. */
  function TierPoints(deckMode: DeckMode, t: MatchType): int
  {
    var scores := GetBBTable(deckMode);
    match t
    case Exact => scores.exact
    case RankColor => scores.rankColor
    case RankOnly => scores.rank
    case SuitOnly => scores.suit
    case ColorOnly => scores.color
    case Miss => 0
    case JokerRevealed => 0
  }

  /**
   * Classifies a guess against the revealed card. A joker is never scored
   * here. For a regular card the first satisfied tier wins, which makes the
   * tiers the exclusive cases stated below, and the points are the table
   * entry of the tier.
   */
  function CalculateBB(guess: PlayerGuess, revealed: Card, deckMode: DeckMode): (r: MatchResult)
    ensures revealed.Joker? ==> r == MatchResult(0, JokerRevealed, false)
    ensures revealed.Regular? ==>
      var rankMatch := guess.rank == revealed.rank;
      var suitMatch := guess.suit == revealed.suit;
      var colorMatch := GetColor(guess.suit) == GetColor(revealed.suit);
      && (r.matchType == Exact <==> rankMatch && suitMatch)
      && (r.matchType == RankColor <==> rankMatch && colorMatch && !suitMatch)
      && (r.matchType == RankOnly <==> rankMatch && !colorMatch)
      && (r.matchType == SuitOnly <==> suitMatch && !rankMatch)
      && (r.matchType == ColorOnly <==> colorMatch && !suitMatch && !rankMatch)
      && (r.matchType == Miss <==> !colorMatch && !rankMatch)
      && r.matchType != JokerRevealed
    ensures r.isExactMatch <==> r.matchType == Exact
    ensures r.bb == TierPoints(deckMode, r.matchType)
    ensures revealed.Regular? ==> (r.bb == 0 <==> r.matchType == Miss)
  {
    if revealed.Joker? then
      MatchResult(0, JokerRevealed, false)
    else
      var scores := GetBBTable(deckMode);
      var rankMatch := guess.rank == revealed.rank;
      var suitMatch := guess.suit == revealed.suit;
      var colorMatch := GetColor(guess.suit) == GetColor(revealed.suit);
      if rankMatch && suitMatch then MatchResult(scores.exact, Exact, true)
      else if rankMatch && colorMatch then MatchResult(scores.rankColor, RankColor, false)
      else if rankMatch then MatchResult(scores.rank, RankOnly, false)
      else if suitMatch then MatchResult(scores.suit, SuitOnly, false)
      else if colorMatch then MatchResult(scores.color, ColorOnly, false)
      else MatchResult(0, Miss, false)
  }

  /** The tiers a hit can have: every tier other than a miss or a joker. */
  predicate IsHit(t: MatchType)
  {
    t != Miss && t != JokerRevealed
  }

  /** Points of a regular-card hit are positive; a regular card yields no joker tier. */
  lemma HitPointsPositive(guess: PlayerGuess, revealed: Card, deckMode: DeckMode)
    requires revealed.Regular?
    ensures IsHit(CalculateBB(guess, revealed, deckMode).matchType) <==> CalculateBB(guess, revealed, deckMode).bb > 0
  {
  }

  /**
   * Points after the streak multiplier, floored. For an integral multiplier
   * (every multiplier the game uses) the result is the exact product.
   */
  function ApplyMultiplier(baseBB: int, multiplier: real): (r: int)
    ensures multiplier == multiplier.Floor as real ==> r == baseBB * multiplier.Floor
    ensures baseBB == 0 ==> r == 0
    ensures baseBB >= 0 && multiplier >= 0.0 ==> r >= 0
  {
    (baseBB as real * multiplier).Floor
  }

  /** The tiers of guess Ace of spades against six revealed cards, in both modes. */
  lemma TierExamples()
    ensures forall m: DeckMode :: CalculateBB(PlayerGuess(Ace, Spades), Regular(Spades, Ace), m).matchType == Exact
    ensures forall m: DeckMode :: CalculateBB(PlayerGuess(Ace, Spades), Regular(Clubs, Ace), m).matchType == RankColor
    ensures forall m: DeckMode :: CalculateBB(PlayerGuess(Ace, Spades), Regular(Diamonds, Ace), m).matchType == RankOnly
    ensures forall m: DeckMode :: CalculateBB(PlayerGuess(Ace, Spades), Regular(Spades, Nine), m).matchType == SuitOnly
    ensures forall m: DeckMode :: CalculateBB(PlayerGuess(Ace, Spades), Regular(Clubs, Queen), m).matchType == ColorOnly
    ensures forall m: DeckMode :: CalculateBB(PlayerGuess(Ace, Spades), Regular(Diamonds, Ten), m).matchType == Miss
  {
  }

  lemma PointExamples()
    ensures CalculateBB(PlayerGuess(Ace, Spades), Regular(Spades, Ace), Deck36).bb == 250
    ensures CalculateBB(PlayerGuess(Ace, Spades), Regular(Clubs, Ace), Deck36).bb == 100
    ensures CalculateBB(PlayerGuess(Ace, Spades), Regular(Diamonds, Ace), Deck36).bb == 50
    ensures CalculateBB(PlayerGuess(Ace, Spades), Regular(Spades, Nine), Deck36).bb == 25
    ensures CalculateBB(PlayerGuess(Ace, Spades), Regular(Clubs, Queen), Deck36).bb == 10
    ensures CalculateBB(PlayerGuess(Ace, Spades), Regular(Diamonds, Ten), Deck36).bb == 0
    ensures CalculateBB(PlayerGuess(Ace, Spades), Regular(Spades, Ace), Deck52).bb == 500
    ensures CalculateBB(PlayerGuess(Ace, Spades), Regular(Clubs, Ace), Deck52).bb == 150
    ensures CalculateBB(PlayerGuess(Ace, Spades), Regular(Diamonds, Ace), Deck52).bb == 75
    ensures CalculateBB(PlayerGuess(Ace, Spades), Regular(Spades, Nine), Deck52).bb == 25
    ensures CalculateBB(PlayerGuess(Ace, Spades), Regular(Clubs, Queen), Deck52).bb == 10
    ensures CalculateBB(PlayerGuess(Ace, Spades), Regular(Diamonds, Ten), Deck52).bb == 0
  {
  }

  lemma MultiplierExamples()
    ensures ApplyMultiplier(250, 1.0) == 250 && ApplyMultiplier(250, 4.0) == 1000
    ensures ApplyMultiplier(25, 15.0) == 375 && ApplyMultiplier(10, 120.0) == 1200
    ensures ApplyMultiplier(33, 1.3) == 42 && ApplyMultiplier(0, 120.0) == 0
  {
  }
}
