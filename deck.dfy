/**
 * Deck construction: the ordered regular deck of a mode, the Fisher-Yates
 * shuffle, and mixing the joker loadout into the shuffled play order.
 */
module Deck {
  import opened Types
  import opened Constants

  /** The cards of one suit, one per rank, in rank order. */
  function Block(suit: Suit, ranks: seq<Rank>): (b: seq<RegularCard>)
    ensures |b| == |ranks|
  {
    if ranks == [] then [] else [Regular(suit, ranks[0])] + Block(suit, ranks[1..])
  }

  /** Every (suit, rank) card, suit-major and rank-minor. */
  function DeckOver(suits: seq<Suit>, ranks: seq<Rank>): seq<RegularCard>
  {
    if suits == [] then [] else Block(suits[0], ranks) + DeckOver(suits[1..], ranks)
  }

  /** The regular deck of a mode, before shuffling. */
  function RegularDeck(deckMode: DeckMode): (d: seq<RegularCard>)
    ensures |d| == deckMode.Size()
  {
    DeckOverLength(SUITS, RanksFor(deckMode));
    DeckOver(SUITS, RanksFor(deckMode))
  }

  lemma {:induction false} BlockAt(suit: Suit, ranks: seq<Rank>, i: nat)
    requires i < |ranks|
    ensures Block(suit, ranks)[i] == Regular(suit, ranks[i])
  {
    if i > 0 {
      BlockAt(suit, ranks[1..], i - 1);
    }
  }

  lemma {:induction false} BlockSnoc(suit: Suit, ranks: seq<Rank>, r: Rank)
    ensures Block(suit, ranks + [r]) == Block(suit, ranks) + [Regular(suit, r)]
  {
    if ranks != [] {
      assert (ranks + [r])[1..] == ranks[1..] + [r];
      BlockSnoc(suit, ranks[1..], r);
    }
  }

  lemma {:induction false} DeckOverSnoc(suits: seq<Suit>, s: Suit, ranks: seq<Rank>)
    ensures DeckOver(suits + [s], ranks) == DeckOver(suits, ranks) + Block(s, ranks)
  {
    if suits == [] {
      assert DeckOver([s], ranks) == Block(s, ranks) + DeckOver([], ranks);
    } else {
      assert (suits + [s])[1..] == suits[1..] + [s];
      DeckOverSnoc(suits[1..], s, ranks);
    }
  }

  lemma {:induction false} BlockMembership(suit: Suit, ranks: seq<Rank>, c: Card)
    ensures c in Block(suit, ranks) <==> c.Regular? && c.suit == suit && c.rank in ranks
  {
    if ranks != [] {
      BlockMembership(suit, ranks[1..], c);
    }
  }

  /** A card is in the deck exactly when it is a regular card of one of its suits and ranks. */
  lemma {:induction false} DeckOverMembership(suits: seq<Suit>, ranks: seq<Rank>, c: Card)
    ensures c in DeckOver(suits, ranks) <==> c.Regular? && c.suit in suits && c.rank in ranks
  {
    if suits != [] {
      BlockMembership(suits[0], ranks, c);
      DeckOverMembership(suits[1..], ranks, c);
    }
  }

  lemma {:induction false} BlockDistinct(suit: Suit, ranks: seq<Rank>)
    requires Distinct(ranks)
    ensures Distinct(Block(suit, ranks))
  {
    if ranks != [] {
      BlockDistinct(suit, ranks[1..]);
      BlockMembership(suit, ranks[1..], Regular(suit, ranks[0]));
      var b := Block(suit, ranks);
      forall i, j | 0 <= i < j < |b| ensures b[i] != b[j] {
        if i == 0 {
          assert b[j] == Block(suit, ranks[1..])[j - 1];
        } else {
          assert b[i] == Block(suit, ranks[1..])[i - 1];
          assert b[j] == Block(suit, ranks[1..])[j - 1];
        }
      }
    }
  }

  lemma DistinctConcat<T>(a: seq<T>, b: seq<T>)
    requires Distinct(a) && Distinct(b)
    requires forall x :: x in a ==> x !in b
    ensures Distinct(a + b)
  {
    var ab := a + b;
    forall i, j | 0 <= i < j < |ab| ensures ab[i] != ab[j] {
      if j < |a| {
        assert ab[i] == a[i] && ab[j] == a[j];
      } else if i >= |a| {
        assert ab[i] == b[i - |a|] && ab[j] == b[j - |a|];
      } else {
        assert ab[i] == a[i] && ab[j] == b[j - |a|];
        assert a[i] in a;
      }
    }
  }

  /** With distinct suits and ranks, no card occurs twice. */
  lemma {:induction false} DeckOverDistinct(suits: seq<Suit>, ranks: seq<Rank>)
    requires Distinct(suits) && Distinct(ranks)
    ensures Distinct(DeckOver(suits, ranks))
  {
    if suits != [] {
      BlockDistinct(suits[0], ranks);
      DeckOverDistinct(suits[1..], ranks);
      forall x | x in Block(suits[0], ranks) ensures x !in DeckOver(suits[1..], ranks) {
        BlockMembership(suits[0], ranks, x);
        DeckOverMembership(suits[1..], ranks, x);
      }
      DistinctConcat(Block(suits[0], ranks), DeckOver(suits[1..], ranks));
    }
  }

  lemma MulStep(a: int, n: int)
    ensures a * n == (a - 1) * n + n
  {
  }

  /** The deck has one card per (suit, rank) pair. */
  lemma {:induction false} DeckOverLength(suits: seq<Suit>, ranks: seq<Rank>)
    ensures |DeckOver(suits, ranks)| == |suits| * |ranks|
  {
    if suits != [] {
      DeckOverLength(suits[1..], ranks);
      MulStep(|suits|, |ranks|);
    }
  }

  /**
   * The regular deck of a mode: 4 * |ranks| cards (36 or 52), all regular,
   * no card twice, and a card is in it exactly when its rank belongs to the
   * mode.
   */
  lemma RegularDeckShape(deckMode: DeckMode)
    ensures |RegularDeck(deckMode)| == 4 * |RanksFor(deckMode)| == deckMode.Size()
    ensures Distinct(RegularDeck(deckMode))
    ensures forall c :: c in RegularDeck(deckMode) <==> c.Regular? && c.rank in RanksFor(deckMode)
  {
    RankAndSuitLists();
    DeckOverLength(SUITS, RanksFor(deckMode));
    DeckOverDistinct(SUITS, RanksFor(deckMode));
    forall c ensures c in RegularDeck(deckMode) <==> c.Regular? && c.rank in RanksFor(deckMode) {
      DeckOverMembership(SUITS, RanksFor(deckMode), c);
    }
  }

  /** The small deck has no rank from 2 to 5; the large deck has every card. */
  lemma RegularDeckModes(deckMode: DeckMode, c: Card)
    ensures deckMode == Deck36 && c in RegularDeck(deckMode) ==> c.rank !in {Two, Three, Four, Five}
    ensures deckMode == Deck52 && c.Regular? ==> c in RegularDeck(deckMode)
  {
    RegularDeckShape(deckMode);
    if c.Regular? {
      RanksForMembership(deckMode, c.rank);
    }
  }


  /** The deck over four suits is their four blocks in order. */
  lemma DeckOverFour(suits: seq<Suit>, ranks: seq<Rank>)
    requires |suits| == 4
    ensures DeckOver(suits, ranks) ==
      Block(suits[0], ranks) + Block(suits[1], ranks) + Block(suits[2], ranks) + Block(suits[3], ranks)
  {
    var t1 := suits[1..];
    var t2 := t1[1..];
    var t3 := t2[1..];
    assert t3[1..] == [];
    var b0, b1, b2, b3 := Block(suits[0], ranks), Block(t1[0], ranks), Block(t2[0], ranks), Block(t3[0], ranks);
    assert DeckOver(t3, ranks) == b3 + [];
    assert DeckOver(t1, ranks) == b1 + (b2 + (b3 + []));
    assert b0 + (b1 + (b2 + (b3 + []))) == b0 + b1 + b2 + b3;
  }

  /**
   * Suit-major, rank-minor order: spades, hearts, diamonds, clubs, each
   * block holding the mode's ranks in order.
   */
  lemma RegularDeckOrder(deckMode: DeckMode)
    ensures var ranks := RanksFor(deckMode);
      RegularDeck(deckMode) == Block(Spades, ranks) + Block(Hearts, ranks) + Block(Diamonds, ranks) + Block(Clubs, ranks)
    ensures forall suit, i :: 0 <= i < |RanksFor(deckMode)| ==> Block(suit, RanksFor(deckMode))[i] == Regular(suit, RanksFor(deckMode)[i])
  {
    DeckOverFour(SUITS, RanksFor(deckMode));
    forall suit, i | 0 <= i < |RanksFor(deckMode)| ensures Block(suit, RanksFor(deckMode))[i] == Regular(suit, RanksFor(deckMode)[i]) {
      BlockAt(suit, RanksFor(deckMode), i);
    }
  }

  lemma SliceSnoc<T>(s: seq<T>, i: nat)
    requires i < |s|
    ensures s[..i + 1] == s[..i] + [s[i]]
  {
  }

  /** Builds every (suit, rank) card with nested loops, suit-major. */
  method BuildDeck(suits: seq<Suit>, ranks: seq<Rank>) returns (cards: seq<RegularCard>)
    ensures cards == DeckOver(suits, ranks)
  {
    cards := [];
    for si := 0 to |suits|
      invariant cards == DeckOver(suits[..si], ranks)
    {
      var suit := suits[si];
      for ri := 0 to |ranks|
        invariant cards == DeckOver(suits[..si], ranks) + Block(suit, ranks[..ri])
      {
        BlockSnoc(suit, ranks[..ri], ranks[ri]);
        SliceSnoc(ranks, ri);
        var card: RegularCard := Regular(suit, ranks[ri]);
        cards := cards + [card];
      }
      assert ranks[..|ranks|] == ranks;
      DeckOverSnoc(suits[..si], suit, ranks);
      SliceSnoc(suits, si);
    }
    assert suits[..|suits|] == suits;
  }

  /** The regular deck of a mode, built over its suits and ranks. */
  method CreateDeck(deckMode: DeckMode) returns (cards: seq<RegularCard>)
    ensures cards == RegularDeck(deckMode)
  {
    cards := BuildDeck(SUITS, RanksFor(deckMode));
  }

  /**
   * Fisher-Yates (Knuth) shuffle of a copy of the input. Each swap partner
   * j with 0 <= j <= i is chosen freely, standing for every outcome of the
   * random draw: whatever is drawn, the result is a permutation of the input.
   */
  method Shuffle<T>(s: seq<T>) returns (shuffled: seq<T>)
    ensures |shuffled| == |s|
    ensures multiset(shuffled) == multiset(s)
  {
    var a := new T[|s|](k requires 0 <= k < |s| => s[k]);
    assert a[..] == s;
    var i := a.Length - 1;
    while i > 0
      invariant i < a.Length
      invariant multiset(a[..]) == multiset(s)
    {
      var j :| 0 <= j <= i;
      ghost var before := a[..];
      a[i], a[j] := a[j], a[i];
      assert a[..] == before[i := before[j]][j := before[i]];
      i := i - 1;
    }
    shuffled := a[..];
  }

  /** The regular cards followed by the loadout, shuffled; every joker of the loadout is kept. */
  method MixInJokers(deck: seq<RegularCard>, loadout: seq<JokerCard>) returns (mixed: seq<Card>)
    ensures |mixed| == |deck| + |loadout|
    ensures multiset(mixed) == multiset(deck) + multiset(loadout)
    ensures forall c: Card :: c.Joker? ==> multiset(mixed)[c] == multiset(loadout)[c]
  {
    var full: seq<Card> := deck;
    full := full + loadout;
    mixed := Shuffle(full);
    forall c: Card | c.Joker? ensures multiset(mixed)[c] == multiset(loadout)[c] {
      assert c !in deck;
    }
  }

  /** An element of a list without repeats occurs in it at most once. */
  lemma {:induction false} DistinctOccursOnce<T>(s: seq<T>, x: T)
    requires Distinct(s)
    ensures multiset(s)[x] == if x in s then 1 else 0
  {
    if s != [] {
      assert s == [s[0]] + s[1..];
      assert Distinct(s[1..]) by {
        forall i, j | 0 <= i < j < |s[1..]| ensures s[1..][i] != s[1..][j] {
          assert s[1..][i] == s[i + 1] && s[1..][j] == s[j + 1];
        }
      }
      if s[0] == x {
        assert x !in s[1..] by {
          forall k | 0 <= k < |s[1..]| ensures s[1..][k] != x {
            assert s[1..][k] == s[k + 1];
          }
        }
      }
      DistinctOccursOnce(s[1..], x);
    }
  }

  /**
   * How often a card occurs in the game deck of a mode and a loadout: a
   * regular card once when its rank belongs to the mode, a joker as often as
   * the loadout holds it.
   */
  function GameDeckCount(deckMode: DeckMode, loadout: seq<JokerCard>, c: Card): nat
  {
    if c.Joker? then multiset(loadout)[c]
    else if c.rank in RanksFor(deckMode) then 1 else 0
  }

  /** The cards are those of a game deck, each as often as GameDeckCount says. */
  ghost predicate IsGameDeck(cards: multiset<Card>, deckMode: DeckMode, loadout: seq<JokerCard>)
  {
    forall c: Card :: cards[c] == GameDeckCount(deckMode, loadout, c)
  }

  /** Counting the cards of a list without repeats, plus a loadout, card by card. */
  lemma DistinctPlusLoadout(regular: seq<RegularCard>, deckMode: DeckMode, loadout: seq<JokerCard>, cards: multiset<Card>)
    requires Distinct(regular)
    requires forall c :: c in regular <==> c.Regular? && c.rank in RanksFor(deckMode)
    ensures IsGameDeck(cards, deckMode, loadout) <==> cards == multiset(regular) + multiset(loadout)
  {
    var whole := multiset(regular) + multiset(loadout);
    forall c: Card ensures whole[c] == GameDeckCount(deckMode, loadout, c) {
      DistinctOccursOnce(regular, c);
      if c.Joker? {
        assert c !in regular;
      } else {
        assert c !in loadout;
      }
    }
    if IsGameDeck(cards, deckMode, loadout) {
      assert cards == whole by {
        forall c: Card ensures cards[c] == whole[c] {
        }
      }
    }
  }

  /** Being a game deck is being the mode's regular deck plus the loadout, in any order. */
  lemma GameDeckIsRegularPlusLoadout(cards: multiset<Card>, deckMode: DeckMode, loadout: seq<JokerCard>)
    ensures IsGameDeck(cards, deckMode, loadout) <==>
              cards == multiset(RegularDeck(deckMode)) + multiset(loadout)
  {
    RegularDeckShape(deckMode);
    DistinctPlusLoadout(RegularDeck(deckMode), deckMode, loadout, cards);
  }

  /** The play order of a session: the mode's regular deck with the loadout, shuffled. */
  method CreateGameDeck(deckMode: DeckMode, loadout: seq<JokerCard>) returns (gameDeck: seq<Card>)
    ensures |gameDeck| == deckMode.Size() + |loadout|
    ensures IsGameDeck(multiset(gameDeck), deckMode, loadout)
  {
    var regularCards := CreateDeck(deckMode);
    RegularDeckShape(deckMode);
    gameDeck := MixInJokers(regularCards, loadout);
    GameDeckIsRegularPlusLoadout(multiset(gameDeck), deckMode, loadout);
  }
}
