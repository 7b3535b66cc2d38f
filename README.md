# Card-guessing game engine, modelled in Dafny

This project models the engine of a single-player card-guessing game. The
player guesses the rank and suit of a face-down card. The guess earns points by
match tier: exact card, rank and colour, rank, suit, colour, or a miss. Points
are multiplied by a streak multiplier that climbs on hits. They collect in a
provisional buffer that a miss burns unless a shield is up, and that banking
moves into the permanent total score. Jokers mixed into the deck either raise
the buffer by 30% (red), raise the one-shot shield (black) or do nothing
(green). Lifetime statistics keep running sums, best values and a top-ten
high-score table.

The Dafny modules follow the source files:

| module | file | source | form |
|---|---|---|---|
| `Types` | `types.dfy` | `src/lib/game/types.ts` | datatypes |
| `Constants` | `constants.dfy` | `src/lib/utils/constants.ts` | constants, functions, lemmas |
| `Scoring` | `scoring.dfy` | `src/lib/game/scoring.ts` | functions, lemmas |
| `Streak` | `streak.dfy` | `src/lib/game/streak.ts` | functions, lemmas |
| `Joker` | `joker.dfy` | `src/lib/game/joker.ts` | functions, lemmas |
| `Deck` | `deck.dfy` | `src/lib/game/deck.ts` | methods with loops (nested build loops, in-place Fisher-Yates on an array), specified by recursive functions |
| `Probability` | `probability.dfy` | `src/lib/game/probability.ts` | functions, lemmas |
| `Store` | `store.dfy` | `src/store/gameStore.ts` | class `GameStore`, one `modifies this` method per action |
| `Stats` | `stats.dfy` | `src/store/statsStore.ts` | class `StatsStore`; merge loop as a method; sorting as functions |

The game record is a class with a `state` field (the `GameState` record) and an
`extras` field (the per-game tracking: move history, counters and joker counts).
Each action replaces them by one merged update, as the store does. A ghost field
`cardsInPlay` holds the cards of the current session: the last loadout's deck plus the discard pile it found, minus any table card that a direct deal replaced. `Valid()` bundles the
invariants:

- the buffer and total score are non-negative;
- the streak level is in 1..10 and carries its own multiplier;
- the accuracy counters are consistent;
- none of the three phases that no action enters is used;
- in phase idle there is a card on the table;
- every card of the session is in exactly one of deck, discard pile and table.

Every action keeps these invariants. Guards that the source turns into silent
no-ops are modelled as branches that leave the object unchanged, not as
preconditions.

The store's actions behave as follows, which a reader might not expect:

- `discardCard`, `selectLoadout` and `endGame` have no phase guard. Discarding is allowed from any phase, including after a bank, when it throws the un-guessed card away.
- `selectLoadout` does not clear the discard pile.
- A miss is detected by zero base points rather than by its tier. The two agree because every table entry is positive (`Scoring.CalculateBB` proves `bb == 0 <==> Miss` for regular cards).

## Model

| member | source | states |
|---|---|---|
| Constants.GetBBTable | src/lib/utils/constants.ts:18-40 | in both tables exact > rank+colour > rank > suit > colour > 0, so tier priority agrees with point order; suit is 25 and colour 10 in both |
| Constants.BBTableValues | src/lib/utils/constants.ts:18-32 | the 36-card table is 250/100/50/25/10 and the 52-card table 500/150/75/25/10 |
| Constants.GetStreakMultipliers | src/lib/utils/constants.ts:44-62 | the multiplier table has MAX_STREAK_LEVEL = 10 entries, from 1 up to 120 |
| Constants.StreakMultipliersIncreasing | src/lib/utils/constants.ts:44-55 | each level's multiplier is strictly greater than every lower level's |
| Constants.StatusLabelsOnePerLevel | src/lib/utils/constants.ts:66-77 | there is exactly one status label per streak level |
| Constants.GetMaxJokerSlots | src/lib/utils/constants.ts:87-89 | one joker slot in the 36-card mode, two in the 52-card mode |
| Constants.RanksFor | src/lib/game/deck.ts:35 | the rank list chosen for a mode, times the four suits, is the mode's deck size |
| Constants.RanksForMembership | src/lib/utils/constants.ts:93-111 | a rank is in the mode's list iff the mode is 52 or the rank is not 2 to 5 |
| Constants.RankAndSuitLists | src/lib/utils/constants.ts:93-113 | 9 and 13 ranks and 4 suits, each list without repeats; RANKS_52 is 2,3,4,5 followed by RANKS_36; every rank and every suit is listed |
| Constants.RanksForDistinct | src/lib/utils/constants.ts:93-111 | neither mode's rank list repeats a rank |
| Scoring.GetColor | src/lib/game/scoring.ts:19-21 | hearts and diamonds are red, spades and clubs black, both directions |
| Scoring.CalculateBB | src/lib/game/scoring.ts:36-69 | a joker gives 0 points and the joker tier. For a regular card each tier holds iff its rank/suit/colour condition holds (exact; rank and colour with a different suit; rank with a different colour; suit without rank; colour only; miss), so the tiers partition the cases. isExactMatch iff exact. The points are the mode's table entry of the tier, and 0 iff miss |
| Scoring.HitPointsPositive | src/lib/game/scoring.ts:46-68 | on a regular card a hit tier is exactly a positive score |
| Scoring.ApplyMultiplier | src/lib/game/scoring.ts:75-77 | the floored product is the exact product for an integral multiplier, 0 for 0 base points, and never negative for non-negative inputs |
| Scoring.TierExamples | __tests__/scoring.test.ts:42-122 | ace of spades against the ace of spades, ace of clubs, ace of diamonds, nine of spades, queen of clubs and ten of diamonds gives exact, rank and colour, rank, suit, colour and miss in both modes |
| Scoring.PointExamples | __tests__/scoring.test.ts:42-122 | the same six guesses score 250/100/50/25/10/0 in the 36-card mode and 500/150/75/25/10/0 in the 52-card mode |
| Scoring.MultiplierExamples | __tests__/scoring.test.ts:149-154 | 250 x1 = 250, 250 x4 = 1000, 25 x15 = 375, 10 x120 = 1200, 0 x120 = 0, and 33 x1.3 floors to 42 |
| Streak.Clamp | src/lib/game/streak.ts:17-21 | the clamped level is in 1..10, equals the level inside that range, and is the nearest end outside it |
| Streak.GetStreakMultiplier | src/lib/game/streak.ts:17-21 | levels 1..10 give the table entry at level - 1; any level up to 1 gives 1 and any level from 10 gives 120; the result is in 1..120 |
| Streak.MultiplierMonotone | src/lib/game/streak.ts:17-21 | a higher level never has a lower multiplier |
| Streak.IncrementStreakLevel | src/lib/game/streak.ts:27-29 | the next level is level + 1 below 10 and 10 from 10 up; from a level in 1..10 it stays in 1..10 and does not decrease |
| Streak.ResetStreak | src/lib/game/streak.ts:35-37 | a reset gives level 1 at that level's own multiplier, which is 1 |
| Streak.GetStreakStatus | src/lib/game/streak.ts:42-45 | the status is one of the labels: the first for any level up to 1, the last for any level from 10 |
| Streak.StatusMatchesMultiplier | src/lib/game/streak.ts:42-45 | the label and the multiplier of any level come from the same position of their tables, so the status clamps exactly as the multiplier does |
| Streak.MultiplierTable | __tests__/streak.test.ts:13-55 | the multipliers of levels 1 to 10 are 1, 2, 4, 8, 15, 25, 40, 60, 80, 120; levels 0 and -5 give 1, and levels 11 and 999 give 120; incrementing 1, 9, 10 and 15 gives 2, 10, 10 and 10 |
| Streak.StatusExamples | __tests__/streak.test.ts:74-81 | levels 1, 4, 5 and 10 have the labels "Старт", "В огне!", "Элита" and "БОГ ИГРЫ", and the out-of-range levels 0 and 11 have the first and the last label |
| Joker.ActivateJokerAbility | src/lib/game/joker.ts:15-44 | the result names the joker's variant; only red carries a buffer factor, which is 1.3; only black carries a shield, which is on; green carries neither |
| Joker.ApplyRedJokerBonus | src/lib/game/joker.ts:51-53 | the bonus is buffer x 1.3 floored, which equals (13 x buffer) div 10, and never lowers a non-negative buffer |
| Joker.RedBonusExamples | __tests__/joker.test.ts:42-46 | 1000 gives 1300, 0 gives 0, 1 gives 1, 100 gives 130, 333 gives 432 |
| Joker.CheckShieldProtection | src/lib/game/joker.ts:62-76 | the buffer is protected iff the shield is up and the guess missed; the shield remains iff it is up and the guess hit |
| Deck.RegularDeckShape | src/lib/game/deck.ts:33-48 | the regular deck has 4 x (ranks of the mode) cards, i.e. 36 or 52, without repeats, and holds exactly the regular cards whose rank is in the mode |
| Deck.RegularDeckModes | src/lib/game/deck.ts:35-45 | the 36-card deck holds no rank from 2 to 5; the 52-card deck holds every regular card |
| Deck.RegularDeckOrder | src/lib/game/deck.ts:37-45 | the deck is suit-major over spades, hearts, diamonds, clubs, each block holding the mode's ranks in order |
| Deck.BuildDeck | src/lib/game/deck.ts:37-45 | the nested loops push exactly the suit-major deck over the given suits and ranks |
| Deck.CreateDeck | src/lib/game/deck.ts:33-48 | the built deck is the mode's regular deck |
| Deck.Shuffle | src/lib/game/deck.ts:20-27 | for every choice of swap partners the result has the input's length and is a permutation of it; the input sequence itself is a value and is not changed |
| Deck.MixInJokers | src/lib/game/deck.ts:53-59 | the mixed deck has length regular + loadout, is a permutation of their concatenation, and holds each joker exactly as often as the loadout does |
| Deck.GameDeckIsRegularPlusLoadout | src/lib/game/deck.ts:64-70 | a multiset is a game deck (one of each regular card of the mode, each loadout joker as often as listed) iff it is the regular deck plus the loadout |
| Deck.CreateGameDeck | src/lib/game/deck.ts:64-70 | the game deck has deck size + loadout length cards and is a game deck of the mode and loadout, duplicate joker variants kept |
| Probability.Share | src/lib/game/probability.ts:51-56 | a count over the total is in [0, 1]; it is 0 iff the count is 0 and 1 iff the count is the total |
| Probability.SharesOf | src/lib/game/probability.ts:27-56 | with no regular cards all four values are 0; otherwise each is in [0, 1] |
| Probability.CalculateProbabilities | src/lib/game/probability.ts:20-57 | with no regular card left all four values are 0, and each value is in [0, 1] |
| Probability.RegularCardsMembership | src/lib/game/probability.ts:24-26 | a card survives the filter iff it is in the deck and regular |
| Probability.JokersIgnored | src/lib/game/probability.ts:24-27 | removing the jokers from the deck changes none of the four values |
| Probability.JokerInsertionIgnored | src/lib/game/probability.ts:24-27 | inserting a joker anywhere in the deck changes none of the four values |
| Probability.ProbabilitiesNest | src/lib/game/probability.ts:35-49 | exact <= rank, exact <= suit and suit <= colour, for every guess and deck |
| Probability.FullDeckCounts | src/lib/game/probability.ts:35-49 | on a full regular deck the exact card occurs once and its rank four times if the rank is in the mode, none otherwise; the suit n times and the colour 2n times, n ranks per suit |
| Probability.SharesOfFullCounts | src/lib/game/probability.ts:51-56 | 4n regular cards with counts 1, 4, n, 2n give 1/4n, 4/4n, n/4n, 2n/4n |
| Probability.FullDeckProbabilities | src/lib/game/probability.ts:20-57 | on a full deck of n ranks per suit, a guess of a rank in the mode gives 1/4n, 4/4n, n/4n and 2n/4n |
| Probability.FullDeckExample | __tests__/probability.test.ts:34-45 | a full 36-card deck with any guess of a rank it holds gives 1/36, 4/36, 9/36, 18/36 |
| Probability.AceOfSpadesFullDeck | __tests__/probability.test.ts:34-45 | the same for the ace of spades |
| Probability.SmallDeckExample | __tests__/probability.test.ts:47-60 | ace of spades, king of spades and queen of hearts with guess ace of spades gives 1/3, 1/3, 2/3, 2/3 |
| Probability.MixedDeckExample | __tests__/probability.test.ts:62-76 | ace of spades, king of hearts and two jokers with guess ace of spades gives 1/2 for all four values, the jokers not counted |
| Probability.EmptyDeckExample | __tests__/probability.test.ts:29-32 | for a guess of the ace of spades, an empty deck gives 0 for all four values |
| Probability.JokerOnlyDeckExample | __tests__/probability.test.ts:78-82 | for a guess of the ace of spades, a deck of only a red and a black joker gives 0 for all four values |
| Store.BumpJokerCount | src/store/gameStore.ts:206-208 | the variant's count goes up by one from its stored value (0 when missing); no other count changes, and no other key appears |
| Store.AccuracyDeltasFor | src/store/gameStore.ts:271-277 | the else-if chain moves at most one of the three accuracy counters, and none on a miss, a suit-only hit or a joker; the exact counter moves iff the tier is exact, the rank counter iff it is rank or rank and colour, the colour counter iff it is colour only |
| Store.GuessKeepsCountersBounded | src/store/gameStore.ts:271-277 | one guess adds one to the guess count and at most one to the counted hits, and none on a miss, a suit-only hit or a joker, so exact + rank + colour hits never exceed the guesses |
| Store.GameStore.constructor | src/store/gameStore.ts:86-112 | the store starts at the initial state (36 cards, normal mode, phase init, level 1 x1, nothing dealt) and is valid |
| Store.GameStore.InitGame | src/store/gameStore.ts:126-133 | every field, the tracking included, is back to the initial state except the chosen deck mode and play mode, and the phase is loadout |
| Store.GameStore.SelectLoadout | src/store/gameStore.ts:138-160 | more jokers than the mode's slots leaves the store unchanged. Otherwise a card is on the table and the deck holds deck size + jokers - 1 cards; table plus deck is exactly the mode's regular cards plus the loadout; the loadout is stored, turn 1, phase idle, all else unchanged; the session's cards are table, deck and the old discard pile |
| Store.GameStore.DealCard | src/store/gameStore.ts:165-182 | with an empty deck the game ends (buffer banked, phase game over). Otherwise the top card goes face down on the table, the deck loses it, the turn advances, the last outcome and joker are cleared and the phase is idle; a card already on the table leaves play. The total score never drops |
| Store.GameStore.MakeGuess | src/store/gameStore.ts:187-310 | a no-op outside phase idle or without a card. A joker is revealed as in RevealJoker, a regular card scored as in ScoreGuess. An accepted guess appends exactly one record, and total score, deck, discard pile and table card stay |
| Store.GameStore.RevealJoker | src/store/gameStore.ts:193-231 | the card shows. Red floors the buffer x 1.3 and black raises the shield, which a shield already up keeps. The ability is on display, the last outcome cleared and the phase is joker activation. Streak and guess counters stay, the variant's activation count goes up by one, and the record holds the joker tier with 0 points, the new buffer, the old total score and the old multiplier |
| Store.GameStore.ScoreGuess | src/store/gameStore.ts:234-309 | a miss burns the buffer unless the shield was up, spends the shield and resets to level 1 x1. A hit adds base points x old multiplier (positive) to the buffer, goes one level up, recomputes the multiplier and keeps the shield. The guess is counted, a hit also by its tier, and the session maximum is raised to the new multiplier. The record holds the shown points, the new buffer and the new multiplier. The phase is showing |
| Store.GameStore.BankBuffer | src/store/gameStore.ts:315-332 | a no-op with an empty buffer or outside phase idle. Otherwise the buffer moves into the total score, which strictly rises; the buffer is 0, the streak back to level 1 x1, the shield lost, and the phase banking |
| Store.GameStore.DiscardCard | src/store/gameStore.ts:337-353 | a no-op without a card on the table. Otherwise the card tops the discard pile, then the next card is dealt or, with an empty deck, the game ends. No card of the session is lost and the total score never drops |
| Store.GameStore.EndGame | src/store/gameStore.ts:358-365 | the buffer is added to the total score and set to 0, and the phase is game over, from any phase |
| Store.GameStore.Tick | src/store/gameStore.ts:370-372 | the match time goes up by one and nothing else changes |
| Store.PlayRound | src/store/__tests__/gameStore.test.ts:432-436 | a guess then a discard. The guessed card tops the discard pile. With cards left the deck loses its top card and the phase is idle again; with the deck empty the game is over with the buffer at 0 and nothing on the table. The total score never drops and no card is lost |
| Store.PlaySession | src/store/__tests__/gameStore.test.ts:427-444 | guessing and discarding to the end takes one round per card in the deck plus the one on the table. It ends in game over with an empty deck, no card on the table and buffer 0; the discard pile grows by one card per round, no card is lost and the total score is no lower |
| Store.FullLoadoutSession | src/store/__tests__/gameStore.test.ts:427-461 | a game with a full loadout takes 37 rounds in the 36-card mode and 54 in the 52-card mode, and ends with exactly the mode's regular cards and the loadout on the discard pile |
| Stats.InsertByScore | src/store/statsStore.ts:72-74 | insertion adds exactly the one entry to the list |
| Stats.InsertPositionScores | src/store/statsStore.ts:72-74 | every entry before the insertion position scores at least as much as the new entry, and the entry at that position, if any, scores less |
| Stats.InsertPlacement | src/store/statsStore.ts:72-74 | insertion puts the entry at the insertion position and leaves every other entry in its order, so with InsertPositionScores a newcomer never overtakes an equal score |
| Stats.InsertKeepsSorted | src/store/statsStore.ts:72-74 | inserting into a list sorted by score, highest first, keeps it sorted |
| Stats.InsertLowestAppends | src/store/statsStore.ts:72-74 | an entry scoring no more than any listed one goes to the end, behind entries of equal score |
| Stats.SortByScore | src/store/statsStore.ts:72-73 | the sort returns a permutation of its input, sorted by score, highest first |
| Stats.SortedIsUnchanged | src/store/statsStore.ts:72-73 | a list already sorted by score comes out unchanged, so equal scores keep their order |
| Stats.AppendSortsByInsertion | src/store/statsStore.ts:72-74 | sorting a sorted table with one entry appended is inserting that entry |
| Stats.TopHighScores | src/store/statsStore.ts:72-74 | the table holds min(entries, 10) entries, sorted by score, highest first |
| Stats.TopHighScoresKeepsBest | src/store/statsStore.ts:72-74 | every kept entry is an input entry; kept and dropped together are all the inputs; no dropped entry scores above a kept one |
| Stats.TopHighScoresBounded | src/store/statsStore.ts:72-74 | no kept entry scores above a bound every input respects |
| Stats.TieAtTenthNotKept | src/store/statsStore.ts:72-74 | a full, sorted table comes back unchanged when the new entry scores no more than any of its entries, even when it ties the tenth |
| Stats.TopOfFirstGame | src/store/__tests__/gameStore.test.ts:617-630 | the first game's entry alone makes the table |
| Stats.TopOfBetterSecond | src/store/__tests__/gameStore.test.ts:632-651 | a second entry scoring higher than the only one goes in front of it |
| Stats.NewEntry | src/store/statsStore.ts:65-71 | the new high-score entry carries the game's final score, match time, deck mode and top multiplier, and the given date |
| Stats.MergeJokerCounts | src/store/statsStore.ts:77-81 | the merged counts have exactly the keys of either map; an added variant's count is its stored count (0 when missing) plus the added one; a stored variant not added keeps its count |
| Stats.StatsStore.constructor | src/store/statsStore.ts:41-59 | the statistics start at the defaults: all zero, three joker counts at 0, no achievements and no high scores |
| Stats.StatsStore.RecordGameResult | src/store/statsStore.ts:61-102 | one more game, the score added to the total, best score and best multiplier raised to the game's, best time taken outright while it is 0 and lowered to the game's otherwise, the four counters summed, the joker counts merged as in MergeJokerCounts, and the table re-sorted with the new entry and cut to ten. The table stays sorted, at most ten entries, no more than the games played, and none above the best score |
| Stats.StatsStore.ResetStats | src/store/statsStore.ts:104 | every statistic is back to its default |
| Stats.TwoGamesExample | src/store/__tests__/gameStore.test.ts:632-651 | after a 500-point 120-second game with a red joker and a 1000-point 90-second game with two black jokers: 2 games, 1500 points, best 1000, best time 90, best multiplier 8, table 1000 then 500, one red and two black activations |

## Left out

- Persistence: the storage middleware of both stores and its key-value adapter are I/O and are not modelled. The settings store and the screens are not part of this model.
- `formatProbability` (src/lib/game/probability.ts:63-65) formats a float as a percentage string. It is left out because the probabilities are modelled as exact reals, not IEEE doubles.
- Deck.Shuffle: proves the permutation property for every choice of swap partners, not the uniform distribution of `Math.random`. Randomness is not modelled.
- Joker.ApplyRedJokerBonus: uses the exact rational 1.3, so the result is (13 x buffer) div 10. A double 1.3 can differ from this by one for very large buffers, which the model does not capture.
- Scoring.ApplyMultiplier: the multiplier is an exact real. Floating-point rounding of non-integral multipliers is not modelled; every in-game multiplier is an integer.
- Stats.StatsStore.RecordGameResult: the entry's date is a parameter, because the clock read is I/O. The joker merge is proved for every order of the added variants, not the engine's key order.
- The achievements list of the statistics is carried but never changed, as no code in the core changes it.
- `RANK_THRESHOLDS` (src/lib/utils/constants.ts:117-128) is left out: no code reads it.
- The warning logged when a loadout is rejected is left out, because logging has no effect on state.
- No code in the repository builds a `GameResult` from the game record: `recordGameResult` takes it from its caller, and only the tests build one. So `GameResult` is taken as given.
- The store's record is split into `state` (the `GameState` fields) and `extras` (the per-game tracking fields). This is only a grouping: every field of the source record is present.
- The end-to-end scoring walk-through of `__tests__/game-session.test.ts` is covered by the per-action contracts. It is not replayed as a scenario.
