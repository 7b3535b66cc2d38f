/**
 * Balance tables of the game: points per match tier, the streak
 * multiplier progression and its labels, the red joker factor, joker
 * slot limits and the rank and suit lists.
 */
module Constants {
  import opened Types

  /** Points per hit tier; a miss and a joker are worth 0. */
  datatype BBTable = BBTable(exact: int, rankColor: int, rank: int, suit: int, color: int)

  const BB_TABLE_36: BBTable := BBTable(250, 100, 50, 25, 10)
  const BB_TABLE_52: BBTable := BBTable(500, 150, 75, 25, 10)

  /** The table for a deck mode; tier priority agrees with point order in both. */
  function GetBBTable(deckMode: DeckMode): (t: BBTable)
    ensures t.exact > t.rankColor > t.rank > t.suit > t.color > 0
    ensures t.suit == 25 && t.color == 10
  {
    if deckMode == Deck36 then BB_TABLE_36 else BB_TABLE_52
  }

  lemma BBTableValues()
    ensures GetBBTable(Deck36) == BBTable(250, 100, 50, 25, 10)
    ensures GetBBTable(Deck52) == BBTable(500, 150, 75, 25, 10)
  {
  }

  const STREAK_MULTIPLIERS: seq<int> := [1, 2, 4, 8, 15, 25, 40, 60, 80, 120]

  const MIN_STREAK_LEVEL: int := 1
  const MAX_STREAK_LEVEL: int := |STREAK_MULTIPLIERS|

  /** The multiplier table: ten entries, from 1 up to 120. */
  function GetStreakMultipliers(): (m: seq<int>)
    ensures |m| == MAX_STREAK_LEVEL == 10
    ensures m[0] == 1 && m[9] == 120
  {
    STREAK_MULTIPLIERS
  }

  /** Each level multiplies more than the one below it. */
  lemma StreakMultipliersIncreasing()
    ensures var m := GetStreakMultipliers();
      forall i, j :: 0 <= i < j < |m| ==> m[i] < m[j]
  {
  }

  const STREAK_STATUS_LABELS: seq<string> := [
    "Старт",
    "Хорошее начало",
    "Мастер",
    "В огне!",
    "Элита",
    "Невероятно",
    "Феноменально",
    "Мистическая удача",
    "Повелитель карт",
    "БОГ ИГРЫ"
  ]

  lemma StatusLabelsOnePerLevel()
    ensures |STREAK_STATUS_LABELS| == MAX_STREAK_LEVEL
  {
  }

  const RED_JOKER_MULTIPLIER: real := 1.3

  /** Joker slots: one in the 36-card mode, two in the 52-card mode. */
  function GetMaxJokerSlots(deckMode: DeckMode): (n: nat)
    ensures deckMode.Size() == 36 ==> n == 1
    ensures deckMode.Size() == 52 ==> n == 2
  {
    if deckMode == Deck36 then 1 else 2
  }

  const RANKS_36: seq<Rank> := [Six, Seven, Eight, Nine, Ten, Jack, Queen, King, Ace]
  const RANKS_52: seq<Rank> := [Two, Three, Four, Five] + RANKS_36
  const SUITS: seq<Suit> := [Spades, Hearts, Diamonds, Clubs]

  predicate Distinct<T(==)>(s: seq<T>)
  {
    forall i, j :: 0 <= i < j < |s| ==> s[i] != s[j]
  }

  /** The rank list of a deck mode, as createDeck selects it. */
  function RanksFor(deckMode: DeckMode): (ranks: seq<Rank>)
    ensures 4 * |ranks| == deckMode.Size()
  {
    if deckMode == Deck36 then RANKS_36 else RANKS_52
  }

  /** The small deck lacks exactly the ranks 2 to 5; the large deck has every rank. */
  lemma RanksForMembership(deckMode: DeckMode, r: Rank)
    ensures r in RanksFor(deckMode) <==> (deckMode == Deck52 || r !in {Two, Three, Four, Five})
  {
    match r
    case Two => case Three => case Four => case Five => case Six => case Seven =>
    case Eight => case Nine => case Ten => case Jack => case Queen => case King =>
    case Ace =>
  }

  lemma RankAndSuitLists()
    ensures |RANKS_36| == 9 && |RANKS_52| == 13 && |SUITS| == 4
    ensures RANKS_52 == [Two, Three, Four, Five] + RANKS_36
    ensures Distinct(RANKS_36) && Distinct(RANKS_52) && Distinct(SUITS)
    ensures forall r: Rank :: r in RANKS_52
    ensures forall s: Suit :: s in SUITS
  {
    forall r: Rank ensures r in RANKS_52 {
      RanksForMembership(Deck52, r);
    }
    forall s: Suit ensures s in SUITS {
      match s
      case Spades => case Hearts => case Diamonds => case Clubs =>
    }
  }

  /** The rank list of either mode has no repeats and, with four suits, one card per pair. */
  lemma RanksForDistinct(deckMode: DeckMode)
    ensures Distinct(RanksFor(deckMode))
  {
    RankAndSuitLists();
  }
}
