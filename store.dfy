/**
 * The session state machine: the record of the running game plus the
 * per-game tracking kept for the statistics, updated by eight actions. Like
 * the store it models, each action reads the current record and replaces it
 * by one merged update; a call an action cannot serve is a silent no-op, and
 * every action keeps the record's invariants (`Valid`).
 */
module Store {
  import opened Types
  import opened Constants
  import opened Scoring
  import opened Streak
  import opened Joker
  import opened Deck

  /** Per-game tracking beside the game record, read out when the game ends. */
  datatype GameExtras = GameExtras(
    moveHistory: seq<MoveRecord>,
    maxStreakMultiplier: int,
    guessCount: int,
    exactMatchCount: int,
    rankMatchCount: int,
    colorMatchCount: int,
    jokersActivatedCount: map<JokerType, int>)

  const INITIAL_GAME_STATE: GameState := GameState(
    Deck36, [], [], [], None, false, 0, 0, 1, 1, false, Init, 0, 0, None, None, Normal, false)

  const INITIAL_GAME_EXTRAS: GameExtras := GameExtras([], 1, 0, 0, 0, 0, map[])

  /** The joker counts after one more activation of a variant. */
  function BumpJokerCount(counts: map<JokerType, int>, variant: JokerType): (m: map<JokerType, int>)
    ensures m.Keys == counts.Keys + {variant}
    ensures m[variant] == CountOf(counts, variant) + 1
    ensures forall v :: v in counts && v != variant ==> m[v] == counts[v]
  {
    counts[variant := CountOf(counts, variant) + 1]
  }

  /** How much one guess moves each of the three accuracy counters. */
  datatype AccuracyDeltas = AccuracyDeltas(exact: nat, rank: nat, color: nat)

  /**
   * The counters a guess of the given tier moves, decided by one chain of
   * tests (written here as a match on the tier): an exact hit, else a rank
   * hit (with or without colour), else a colour-only hit. At most one counter moves, and a miss, a suit-only hit
   * or a joker moves none; so the three counters together never outgrow the
   * number of guesses.
   */
  function AccuracyDeltasFor(t: MatchType): (d: AccuracyDeltas)
    ensures d.exact + d.rank + d.color <= 1
    ensures d.exact + d.rank + d.color == 0 <==> t == Miss || t == SuitOnly || t == JokerRevealed
    ensures d.exact == 1 <==> t == Exact
    ensures d.rank == 1 <==> t == RankOnly || t == RankColor
    ensures d.color == 1 <==> t == ColorOnly
  {
    match t
    case Exact => AccuracyDeltas(1, 0, 0)
    case RankOnly | RankColor => AccuracyDeltas(0, 1, 0)
    case ColorOnly => AccuracyDeltas(0, 0, 1)
    case SuitOnly | Miss | JokerRevealed => AccuracyDeltas(0, 0, 0)
  }

  /** The card face down on the table, as a multiset of zero or one cards. */
  function TableCards(current: Option<Card>): (m: multiset<Card>)
    ensures |m| == if current.Some? then 1 else 0
  {
    if current.Some? then multiset{current.value} else multiset{}
  }

  /**
   * The invariants of a game record: a non-negative buffer and score, a
   * streak level in 1..10 carrying its own multiplier (never above the
   * session maximum), consistent accuracy counters, and no use of the phases
   * that no action enters.
   */
  predicate Consistent(st: GameState, ex: GameExtras)
  {
    && st.buffer >= 0
    && st.totalScore >= 0
    && MIN_STREAK_LEVEL <= st.streakLevel <= MAX_STREAK_LEVEL
    && st.streakMultiplier == GetStreakMultiplier(st.streakLevel)
    && st.streakMultiplier <= ex.maxStreakMultiplier
    && ex.exactMatchCount >= 0 && ex.rankMatchCount >= 0 && ex.colorMatchCount >= 0
    && ex.exactMatchCount + ex.rankMatchCount + ex.colorMatchCount <= ex.guessCount
    && st.phase != Dealing && st.phase != Flipping && st.phase != Discarding
  }

  /** Whenever the player is asked to guess there is a card on the table. */
  predicate TableReady(st: GameState)
  {
    st.phase == Idle ==> st.currentCard.Some?
  }

  /** Every card of the session is in exactly one of deck, discard pile and table. */
  ghost predicate CardsConserved(st: GameState, cardsInPlay: multiset<Card>)
  {
    multiset(st.deck) + multiset(st.discardPile) + TableCards(st.currentCard) == cardsInPlay
  }

  /** The game over state: the buffer is banked into the total score. */
  function EndGameState(s: GameState): GameState
  {
    s.(totalScore := s.totalScore + s.buffer, buffer := 0, phase := GameOver)
  }

  /**
   * The top card of the deck put face down on the table, as the next turn
   * of phase idle with no outcome shown.
   */
  function DealState(s: GameState): GameState
    requires s.deck != []
  {
    s.(deck := s.deck[1..], currentCard := Some(s.deck[0]), cardFaceUp := false,
       turnNumber := s.turnNumber + 1, lastResult := None, lastJokerActivation := None, phase := Idle)
  }

  /** The card on the table moved onto the discard pile. */
  function DiscardState(s: GameState): GameState
    requires s.currentCard.Some?
  {
    s.(discardPile := s.discardPile + [s.currentCard.value], currentCard := None, cardFaceUp := false)
  }

  /**
   * The record after a joker is revealed: shown, the red joker's bonus on
   * the buffer, the black joker's shield raised, the ability on display.
   */
  function RevealState(s: GameState, card: JokerCard): GameState
  {
    s.(cardFaceUp := true,
       buffer := if card.variant == RedJoker then ApplyRedJokerBonus(s.buffer) else s.buffer,
       shieldActive := s.shieldActive || card.variant == BlackJoker,
       lastJokerActivation := Some(ActivateJokerAbility(card)), lastResult := None,
       phase := JokerActivation)
  }

  /** The tracking after a joker is revealed: its count bumped and the move recorded. */
  function RevealExtras(e: GameExtras, card: JokerCard, record: MoveRecord): GameExtras
  {
    e.(jokersActivatedCount := BumpJokerCount(e.jokersActivatedCount, card.variant),
       moveHistory := e.moveHistory + [record])
  }

  /**
   * The record after a miss: shown, the buffer kept only under a shield,
   * the streak back to level 1, the shield spent.
   */
  function MissState(s: GameState, base: MatchResult): GameState
  {
    s.(cardFaceUp := true, buffer := if s.shieldActive then s.buffer else 0,
       streakLevel := MIN_STREAK_LEVEL, streakMultiplier := 1, shieldActive := false,
       lastResult := Some(base), lastJokerActivation := None, phase := Showing)
  }

  /**
   * The record after a hit worth `points`: shown, the points added to the
   * buffer, the streak one level up, the shield kept.
   */
  function HitState(s: GameState, base: MatchResult, points: int): GameState
  {
    var level := IncrementStreakLevel(s.streakLevel);
    s.(cardFaceUp := true, buffer := s.buffer + points, streakLevel := level,
       streakMultiplier := GetStreakMultiplier(level), lastResult := Some(base.(bb := points)),
       lastJokerActivation := None, phase := Showing)
  }

  /**
   * The tracking after a guess on a regular card: the session maximum
   * raised to the move's multiplier, the guess and its kind of hit counted,
   * the move recorded.
   */
  function GuessExtras(e: GameExtras, t: MatchType, record: MoveRecord): GameExtras
  {
    var d := AccuracyDeltasFor(t);
    e.(maxStreakMultiplier := Max(e.maxStreakMultiplier, record.streakMultiplier),
       guessCount := e.guessCount + 1,
       exactMatchCount := e.exactMatchCount + d.exact,
       rankMatchCount := e.rankMatchCount + d.rank,
       colorMatchCount := e.colorMatchCount + d.color,
       moveHistory := e.moveHistory + [record])
  }

  /**
   * A guess keeps the accuracy counters within the number of guesses: the
   * counted hits grow by at most the one guess added, and by nothing on a
   * miss, a suit-only hit or a joker.
   */
  lemma GuessKeepsCountersBounded(e: GameExtras, t: MatchType, record: MoveRecord)
    requires e.exactMatchCount + e.rankMatchCount + e.colorMatchCount <= e.guessCount
    ensures var e' := GuessExtras(e, t, record);
      && e'.guessCount == e.guessCount + 1
      && e'.exactMatchCount + e'.rankMatchCount + e'.colorMatchCount <= e'.guessCount
      && (t == Miss || t == SuitOnly || t == JokerRevealed ==>
            e'.exactMatchCount + e'.rankMatchCount + e'.colorMatchCount ==
            e.exactMatchCount + e.rankMatchCount + e.colorMatchCount)
  {
    var d := AccuracyDeltasFor(t);
    assert d.exact + d.rank + d.color <= 1;
  }

  class GameStore {
    var state: GameState
    var extras: GameExtras
    /** The cards of the session, as handed out by the last loadout. */
    ghost var cardsInPlay: multiset<Card>

    /** The invariants, except that the table may be empty in phase idle. */
    ghost predicate Sound()
      reads this
    {
      Consistent(state, extras) && CardsConserved(state, cardsInPlay)
    }

    ghost predicate Valid()
      reads this
    {
      Sound() && TableReady(state)
    }

    /** The initial game state: 36-card normal mode, nothing dealt, phase init. */
    constructor ()
      ensures Valid()
      ensures state == INITIAL_GAME_STATE && extras == INITIAL_GAME_EXTRAS
    {
      state := INITIAL_GAME_STATE;
      extras := INITIAL_GAME_EXTRAS;
      cardsInPlay := multiset{};
    }

    /** Every field back to the initial state, except the chosen modes; phase loadout. */
    method InitGame(deckMode: DeckMode, mode: GameMode)
      modifies this
      ensures Valid()
      ensures state == INITIAL_GAME_STATE.(deckMode := deckMode, mode := mode, phase := Loadout)
      ensures extras == INITIAL_GAME_EXTRAS
    {
      state := INITIAL_GAME_STATE.(deckMode := deckMode, mode := mode, phase := Loadout);
      extras := INITIAL_GAME_EXTRAS;
      cardsInPlay := multiset{};
    }

    /**
     * Takes the joker loadout. More jokers than the mode's slots: nothing
     * changes. Otherwise the shuffled game deck is built (every regular card
     * of the mode and every joker of the loadout, each once), its first card
     * goes face down on the table, the rest becomes the deck, and the turn
     * starts at 1 in phase idle. The discard pile is not cleared here, so the
     * cards of the session are the new deck, the loadout and any earlier
     * discards.
     */
    method SelectLoadout(jokers: seq<JokerCard>)
      requires Valid()
      modifies this
      ensures Valid()
      ensures |jokers| > GetMaxJokerSlots(old(state.deckMode)) ==> unchanged(this)
      ensures |jokers| <= GetMaxJokerSlots(old(state.deckMode)) ==>
        var s := old(state);
        && state.currentCard.Some?
        && state == s.(loadout := jokers, deck := state.deck, currentCard := state.currentCard,
                       cardFaceUp := false, turnNumber := 1, phase := Idle)
        && |state.deck| == s.deckMode.Size() + |jokers| - 1
        && IsGameDeck(multiset([state.currentCard.value] + state.deck), s.deckMode, jokers)
        && cardsInPlay == multiset([state.currentCard.value] + state.deck) + multiset(s.discardPile)
        && extras == old(extras)
    {
      var s := state;
      var maxSlots := GetMaxJokerSlots(s.deckMode);
      if |jokers| > maxSlots {
        return;
      }
      var gameDeck := CreateGameDeck(s.deckMode, jokers);
      var top, rest := gameDeck[0], gameDeck[1..];
      assert gameDeck == [top] + rest;
      state := s.(loadout := jokers, deck := rest, currentCard := Some(top),
                  cardFaceUp := false, turnNumber := 1, phase := Idle);
      cardsInPlay := multiset(gameDeck) + multiset(s.discardPile);
    }

    /**
     * Turns up the next card: with an empty deck the game ends instead.
     * Otherwise the top card goes face down on the table, the turn advances,
     * the last outcome is cleared and the phase is idle. A card already on
     * the table is overwritten and so leaves play; discardCard clears the
     * table before it deals.
     */
    method DealCard()
      requires Sound()
      modifies this
      ensures Valid()
      ensures old(state.deck) == [] ==> state == EndGameState(old(state)) && cardsInPlay == old(cardsInPlay)
      ensures old(state.deck) != [] ==>
        && state == DealState(old(state))
        && cardsInPlay == old(cardsInPlay) - TableCards(old(state.currentCard))
      ensures extras == old(extras)
      ensures state.totalScore >= old(state.totalScore)
    {
      var s := state;
      if |s.deck| == 0 {
        EndGame();
        return;
      }
      assert s.deck == [s.deck[0]] + s.deck[1..];
      state := DealState(s);
      cardsInPlay := cardsInPlay - TableCards(s.currentCard);
    }

    /**
     * Resolves a guess against the card on the table; without a card, or
     * outside phase idle, nothing changes.
     *
     * A joker is activated instead of scored: the red one raises the buffer
     * by the floored 30% bonus, the black one raises the shield, and the
     * streak and the guess counters stay as they are; its record holds 0
     * points, the new buffer and the unchanged multiplier.
     *
     * A regular card is scored. A miss (0 points, which is exactly the miss
     * tier) burns the buffer unless the shield was up, spends the shield and
     * resets the streak. A hit adds its points times the old multiplier to
     * the buffer, advances the streak, keeps the shield and bumps the
     * accuracy counter of its tier; its record holds the multiplied points,
     * the new buffer and the new multiplier.
     *
     * Either way the card is turned face up, the total score is untouched and
     * exactly one record is appended to the history.
     */
    method MakeGuess(guess: PlayerGuess)
      requires Valid()
      modifies this
      ensures Valid()
      ensures !(old(state.phase) == Idle && old(state.currentCard).Some?) ==> unchanged(this)
      ensures old(state.phase) == Idle && old(state.currentCard).Some? && old(state.currentCard).value.Joker? ==>
        var s, e := old(state), old(extras);
        var card: JokerCard := s.currentCard.value;
        && state == RevealState(s, card)
        && extras == RevealExtras(e, card, MoveRecord(s.turnNumber, guess, card,
             MatchResult(0, JokerRevealed, false), state.buffer, s.totalScore, s.streakMultiplier))
      ensures old(state.phase) == Idle && old(state.currentCard).Some? && old(state.currentCard).value.Regular? ==>
        var s, e := old(state), old(extras);
        var card := s.currentCard.value;
        var base := CalculateBB(guess, card, s.deckMode);
        var points := base.bb * s.streakMultiplier;
        && (base.matchType == Miss ==> state == MissState(s, base))
        && (base.matchType != Miss ==> points > 0 && state == HitState(s, base, points))
        && extras == GuessExtras(e, base.matchType, MoveRecord(s.turnNumber, guess, card,
             state.lastResult.value, state.buffer, s.totalScore, state.streakMultiplier))
      ensures old(state.phase) == Idle && old(state.currentCard).Some? ==>
        |extras.moveHistory| == |old(extras.moveHistory)| + 1 && cardsInPlay == old(cardsInPlay)
      ensures state.totalScore == old(state.totalScore)
      ensures state.deck == old(state.deck) && state.discardPile == old(state.discardPile)
      ensures state.currentCard == old(state.currentCard) && cardsInPlay == old(cardsInPlay)
    {
      if state.phase != Idle || state.currentCard.None? {
        return;
      }
      if state.currentCard.value.Joker? {
        RevealJoker(guess);
      } else {
        ScoreGuess(guess);
      }
    }

    /** The joker half of makeGuess: the revealed joker's ability takes effect. */
    method RevealJoker(guess: PlayerGuess)
      requires Valid() && state.phase == Idle && state.currentCard.Some? && state.currentCard.value.Joker?
      modifies this
      ensures Valid()
      ensures
        var s, e := old(state), old(extras);
        var card: JokerCard := s.currentCard.value;
        && state == RevealState(s, card)
        && extras == RevealExtras(e, card, MoveRecord(s.turnNumber, guess, card,
             MatchResult(0, JokerRevealed, false), state.buffer, s.totalScore, s.streakMultiplier))
      ensures |extras.moveHistory| == |old(extras.moveHistory)| + 1 && cardsInPlay == old(cardsInPlay)
      ensures state.totalScore == old(state.totalScore)
      ensures state.deck == old(state.deck) && state.discardPile == old(state.discardPile)
      ensures state.currentCard == old(state.currentCard)
    {
      var s, e := state, extras;
      var card: JokerCard := s.currentCard.value;
      var activation := ActivateJokerAbility(card);
      var newBuffer := s.buffer;
      var newShieldActive := s.shieldActive;
      // Both effect values the abilities carry (1.3 and true) are truthy.
      if activation.effect.bufferMultiplier.Some? {
        newBuffer := ApplyRedJokerBonus(newBuffer);
      }
      if activation.effect.shieldActive.Some? && activation.effect.shieldActive.value {
        newShieldActive := true;
      }
      var jokersCount := BumpJokerCount(e.jokersActivatedCount, card.variant);
      var record := MoveRecord(s.turnNumber, guess, card, MatchResult(0, JokerRevealed, false),
                               newBuffer, s.totalScore, s.streakMultiplier);
      state := s.(cardFaceUp := true, buffer := newBuffer, shieldActive := newShieldActive,
                  lastJokerActivation := Some(activation), lastResult := None, phase := JokerActivation);
      extras := e.(jokersActivatedCount := jokersCount, moveHistory := e.moveHistory + [record]);
    }

    /** The regular half of makeGuess: the guess is scored against the revealed card. */
    method ScoreGuess(guess: PlayerGuess)
      requires Valid() && state.phase == Idle && state.currentCard.Some? && state.currentCard.value.Regular?
      modifies this
      ensures Valid()
      ensures
        var s, e := old(state), old(extras);
        var card := s.currentCard.value;
        var base := CalculateBB(guess, card, s.deckMode);
        var points := base.bb * s.streakMultiplier;
        && (base.matchType == Miss ==> state == MissState(s, base))
        && (base.matchType != Miss ==> points > 0 && state == HitState(s, base, points))
        && extras == GuessExtras(e, base.matchType, MoveRecord(s.turnNumber, guess, card,
             state.lastResult.value, state.buffer, s.totalScore, state.streakMultiplier))
      ensures |extras.moveHistory| == |old(extras.moveHistory)| + 1 && cardsInPlay == old(cardsInPlay)
      ensures state.totalScore == old(state.totalScore)
      ensures state.deck == old(state.deck) && state.discardPile == old(state.discardPile)
      ensures state.currentCard == old(state.currentCard)
    {
      var s, e := state, extras;
      var card := s.currentCard.value;
      var baseResult := CalculateBB(guess, card, s.deckMode);
      var isMiss := baseResult.bb == 0;
      if isMiss {
        var shield := CheckShieldProtection(s.shieldActive, true);
        var streak := ResetStreak();
        state := s.(cardFaceUp := true, buffer := if shield.bufferProtected then s.buffer else 0,
                    streakLevel := streak.level, streakMultiplier := streak.multiplier,
                    shieldActive := false, lastResult := Some(baseResult),
                    lastJokerActivation := None, phase := Showing);
      } else {
        var points := ApplyMultiplier(baseResult.bb, s.streakMultiplier as real);
        HitPointsPositive(guess, card, s.deckMode);
        assert points == baseResult.bb * s.streakMultiplier > 0 by {
          assert (s.streakMultiplier as real).Floor == s.streakMultiplier;
        }
        var newStreakLevel := IncrementStreakLevel(s.streakLevel);
        var shield := CheckShieldProtection(s.shieldActive, false);
        state := s.(cardFaceUp := true, buffer := s.buffer + points, streakLevel := newStreakLevel,
                    streakMultiplier := GetStreakMultiplier(newStreakLevel),
                    shieldActive := shield.shieldRemaining, lastResult := Some(baseResult.(bb := points)),
                    lastJokerActivation := None, phase := Showing);
      }
      // The accuracy counters move on a hit only, by the kind of hit.
      var record := MoveRecord(s.turnNumber, guess, card, state.lastResult.value, state.buffer,
                               s.totalScore, state.streakMultiplier);
      extras := GuessExtras(e, baseResult.matchType, record);
    }

    /**
     * Secures the buffer: with an empty buffer or outside phase idle nothing
     * changes; otherwise the buffer moves into the total score, the streak
     * resets, the shield is lost and the phase becomes banking.
     */
    method BankBuffer()
      requires Valid()
      modifies this
      ensures Valid()
      ensures (old(state.buffer) <= 0 || old(state.phase) != Idle) ==> unchanged(this)
      ensures old(state.buffer) > 0 && old(state.phase) == Idle ==>
        && state == old(state).(totalScore := old(state.totalScore + state.buffer), buffer := 0,
                                streakLevel := MIN_STREAK_LEVEL, streakMultiplier := 1,
                                shieldActive := false, phase := Banking)
        && state.totalScore > old(state.totalScore)
        && extras == old(extras) && cardsInPlay == old(cardsInPlay)
    {
      var s := state;
      if s.buffer <= 0 {
        return;
      }
      if s.phase != Idle {
        return;
      }
      var streak := ResetStreak();
      state := s.(totalScore := s.totalScore + s.buffer, buffer := 0, streakLevel := streak.level,
                  streakMultiplier := streak.multiplier, shieldActive := false, phase := Banking);
    }

    /**
     * Moves the card on the table to the discard pile, whatever the phase,
     * then deals the next card or, with an empty deck, ends the game. Without
     * a card on the table nothing changes. No card of the session is lost.
     */
    method DiscardCard()
      requires Valid()
      modifies this
      ensures Valid()
      ensures old(state.currentCard).None? ==> unchanged(this)
      ensures old(state.currentCard).Some? ==>
        var s := old(state);
        && (s.deck == [] ==> state == EndGameState(DiscardState(s)))
        && (s.deck != [] ==> state == DealState(DiscardState(s)))
        && state.discardPile == s.discardPile + [s.currentCard.value]
        && extras == old(extras) && cardsInPlay == old(cardsInPlay)
      ensures state.totalScore >= old(state.totalScore)
    {
      var s := state;
      if s.currentCard.None? {
        return;
      }
      state := DiscardState(s);
      assert multiset(state.discardPile) == multiset(s.discardPile) + TableCards(s.currentCard);
      if |s.deck| == 0 {
        EndGame();
      } else {
        DealCard();
      }
    }

    /** Ends the game, whatever the phase: the buffer is banked and the phase is game over. */
    method EndGame()
      requires Sound()
      modifies this
      ensures Valid()
      ensures state == EndGameState(old(state))
      ensures state.totalScore >= old(state.totalScore)
      ensures extras == old(extras) && cardsInPlay == old(cardsInPlay)
    {
      var s := state;
      state := EndGameState(s);
    }

    /** One second of match time; nothing else changes. */
    method Tick()
      requires Valid()
      modifies this
      ensures Valid()
      ensures state == old(state).(matchTime := old(state.matchTime) + 1)
      ensures extras == old(extras) && cardsInPlay == old(cardsInPlay)
    {
      state := state.(matchTime := state.matchTime + 1);
    }
  }

  /**
   * One round of play: a guess at the card on the table, then its discard.
   * The next card is dealt, or, when the deck was empty, the game ends with
   * the buffer banked. Either way the guessed card tops the discard pile.
   */
  method PlayRound(store: GameStore, guess: PlayerGuess)
    requires store.Valid() && store.state.phase == Idle
    modifies store
    ensures store.Valid()
    ensures old(store.state.deck) == [] ==>
      && store.state.phase == GameOver && store.state.buffer == 0
      && store.state.deck == [] && store.state.currentCard == None
    ensures old(store.state.deck) != [] ==>
      store.state.phase == Idle && store.state.deck == old(store.state.deck[1..])
    ensures store.state.discardPile == old(store.state.discardPile) + [old(store.state.currentCard.value)]
    ensures store.state.totalScore >= old(store.state.totalScore)
    ensures store.cardsInPlay == old(store.cardsInPlay)
  {
    store.MakeGuess(guess);
    store.DiscardCard();
  }

  /**
   * A player who guesses and then discards every card, from a freshly dealt
   * table, plays one round per card left plus the one on the table; the game
   * then ends with every card discarded, the buffer banked and the score no
   * lower than before.
   */
  method PlaySession(store: GameStore, guess: PlayerGuess) returns (rounds: nat)
    requires store.Valid() && store.state.phase == Idle
    modifies store
    ensures store.Valid()
    ensures rounds == |old(store.state.deck)| + 1
    ensures store.state.phase == GameOver && store.state.buffer == 0
    ensures store.state.deck == [] && store.state.currentCard == None
    ensures |store.state.discardPile| == |old(store.state.discardPile)| + rounds
    ensures store.state.totalScore >= old(store.state.totalScore)
    ensures store.cardsInPlay == old(store.cardsInPlay)
  {
    rounds := 0;
    while store.state.phase != GameOver
      invariant store.Valid()
      invariant store.state.phase != GameOver ==> store.state.phase == Idle
      invariant store.state.phase == GameOver ==>
        store.state.deck == [] && store.state.currentCard == None && store.state.buffer == 0
      invariant rounds + |store.state.deck| + (if store.state.phase == GameOver then 0 else 1) == |old(store.state.deck)| + 1
      invariant |store.state.discardPile| == |old(store.state.discardPile)| + rounds
      invariant store.state.totalScore >= old(store.state.totalScore)
      invariant store.cardsInPlay == old(store.cardsInPlay)
      decreases |store.state.deck| + (if store.state.phase == GameOver then 0 else 1)
    {
      PlayRound(store, guess);
      rounds := rounds + 1;
    }
  }

  /**
   * A whole game with a full loadout, guessing and discarding to the end:
   * 37 rounds in the 36-card mode (one joker) and 54 in the 52-card mode
   * (two jokers), every card ending on the discard pile.
   */
  method FullLoadoutSession(deckMode: DeckMode, jokers: seq<JokerCard>, guess: PlayerGuess)
    returns (store: GameStore, rounds: nat)
    requires |jokers| == GetMaxJokerSlots(deckMode)
    ensures store.Valid()
    ensures rounds == (if deckMode == Deck36 then 37 else 54)
    ensures store.state.phase == GameOver && store.state.totalScore >= 0
    ensures IsGameDeck(multiset(store.state.discardPile), deckMode, jokers)
  {
    store := new GameStore();
    store.InitGame(deckMode, Normal);
    store.SelectLoadout(jokers);
    ghost var dealt := store.cardsInPlay;
    assert IsGameDeck(dealt, deckMode, jokers);
    rounds := PlaySession(store, guess);
    assert multiset(store.state.discardPile) == dealt;
  }
}
