/**
 * Value types of the card-guessing game engine: cards, guesses, match
 * results, joker activations, phases and the per-turn move record.
 */
module Types {

  datatype Option<+T> = None | Some(value: T)

  datatype Suit = Spades | Hearts | Diamonds | Clubs

  /** The 13 ranks of the large deck; the small deck uses Six..Ace only. */
  datatype Rank = Two | Three | Four | Five | Six | Seven | Eight | Nine | Ten | Jack | Queen | King | Ace

  datatype Color = Red | Black

  /** The two deck sizes, 36 and 52 cards. */
  datatype DeckMode = Deck36 | Deck52 {
    function Size(): nat {
      match this
      case Deck36 => 36
      case Deck52 => 52
    }
  }

  /** Joker variants; the green one is reserved and has no effect. */
  datatype JokerType = RedJoker | BlackJoker | GreenJoker

  /** A card is either a regular (suit, rank) card or a joker of some variant. */
  datatype Card = Regular(suit: Suit, rank: Rank) | Joker(variant: JokerType)

  type RegularCard = c: Card | c.Regular? witness Regular(Spades, Ace)

  type JokerCard = c: Card | c.Joker? witness Joker(RedJoker)

  /** A guess names a rank and a suit; it is never a joker. */
  datatype PlayerGuess = PlayerGuess(rank: Rank, suit: Suit)

  /** Match tiers, highest priority first. */
  datatype MatchType = Exact | RankColor | RankOnly | SuitOnly | ColorOnly | Miss | JokerRevealed

  datatype MatchResult = MatchResult(bb: int, matchType: MatchType, isExactMatch: bool)

  /** The optional parts of a joker's effect: a buffer factor (red) or a shield (black). */
  datatype JokerEffect = JokerEffect(bufferMultiplier: Option<real>, shieldActive: Option<bool>)

  datatype JokerAbilityResult = JokerAbilityResult(jokerType: JokerType, description: string, effect: JokerEffect)

  /** Dealing, Flipping and Discarding are declared but no action enters them. */
  datatype GamePhase =
    | Init
    | Loadout
    | Dealing
    | Idle
    | Flipping
    | Showing
    | JokerActivation
    | Banking
    | Discarding
    | GameOver

  datatype GameMode = Normal | Training

  /** One entry of the move history, appended by every accepted guess. */
  datatype MoveRecord = MoveRecord(
    turnNumber: int,
    guess: PlayerGuess,
    revealedCard: Card,
    result: MatchResult,
    bufferAtTime: int,
    totalScoreAtTime: int,
    streakMultiplier: int)

  datatype HighScoreEntry = HighScoreEntry(
    score: int,
    matchTime: int,
    deckMode: DeckMode,
    date: string,
    streakMultiplierMax: int)

  /** The record of a running game: table, scores, streak, shield, phase and clock. */
  datatype GameState = GameState(
    deckMode: DeckMode,
    loadout: seq<JokerCard>,
    deck: seq<Card>,
    discardPile: seq<Card>,
    currentCard: Option<Card>,
    cardFaceUp: bool,
    totalScore: int,
    buffer: int,
    streakMultiplier: int,
    streakLevel: int,
    shieldActive: bool,
    phase: GamePhase,
    turnNumber: int,
    matchTime: int,
    lastResult: Option<MatchResult>,
    lastJokerActivation: Option<JokerAbilityResult>,
    mode: GameMode,
    showProbabilities: bool)

  /** Lifetime statistics over all finished games. */
  datatype GameStats = GameStats(
    totalGamesPlayed: int,
    totalBBEarned: int,
    bestScore: int,
    bestMatchTime: int,
    bestStreakMultiplier: int,
    totalGuesses: int,
    exactMatches: int,
    rankMatches: int,
    colorMatches: int,
    jokersActivated: map<JokerType, int>,
    achievementsUnlocked: seq<string>,
    highScores: seq<HighScoreEntry>)

  /** A stored joker count, with a missing variant counting as 0. */
  function CountOf(counts: map<JokerType, int>, t: JokerType): int
  {
    if t in counts then counts[t] else 0
  }

  /** Math.max on integers. */
  function Max(a: int, b: int): (m: int)
    ensures m >= a && m >= b && (m == a || m == b)
  {
    if a < b then b else a
  }

  /** Math.min on integers. */
  function Min(a: int, b: int): (m: int)
    ensures m <= a && m <= b && (m == a || m == b)
  {
    if a < b then a else b
  }
}
