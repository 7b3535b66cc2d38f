/**
 * Lifetime statistics: each finished game is folded into running sums,
 * maxima and a minimum, its joker activations are merged into the
 * per-variant counts by addition, and it enters a high-score table that is
 * kept sorted by score, highest first, and cut to ten entries.
 */
module Stats {
  import opened Types

  const MAX_HIGH_SCORES: nat := 10

  /** The summary of one finished game, as the game screen hands it over. */
  datatype GameResult = GameResult(
    finalScore: int,
    matchTime: int,
    deckMode: DeckMode,
    maxStreakMultiplier: int,
    totalGuesses: int,
    exactMatches: int,
    rankMatches: int,
    colorMatches: int,
    jokersActivated: map<JokerType, int>)

  const DEFAULT_STATS: GameStats := GameStats(
    0, 0, 0, 0, 0, 0, 0, 0, 0,
    map[RedJoker := 0, BlackJoker := 0, GreenJoker := 0], [], [])

  // ---------------------------------------------------------------------------
  // High-score table

  predicate SortedByScore(s: seq<HighScoreEntry>)
  {
    forall i, j :: 0 <= i < j < |s| ==> s[i].score >= s[j].score
  }

  /**
   * Inserts an entry into a list sorted by score, after every entry that
   * scores at least as much, so that entries of equal score keep their
   * order of arrival.
   */
  function InsertByScore(e: HighScoreEntry, sorted: seq<HighScoreEntry>): (r: seq<HighScoreEntry>)
    ensures |r| == |sorted| + 1
    ensures multiset(r) == multiset(sorted) + multiset{e}
  {
    if sorted == [] then [e]
    else if sorted[0].score >= e.score then
      assert sorted == [sorted[0]] + sorted[1..];
      [sorted[0]] + InsertByScore(e, sorted[1..])
    else
      [e] + sorted
  }

  /** Where insertion puts an entry: behind the leading run of entries scoring at least as much. */
  function InsertPosition(e: HighScoreEntry, sorted: seq<HighScoreEntry>): (p: nat)
    ensures p <= |sorted|
  {
    if sorted == [] || sorted[0].score < e.score then 0
    else 1 + InsertPosition(e, sorted[1..])
  }

  /** The entries before the insertion position score at least as much; the one at it scores less. */
  lemma {:induction false} InsertPositionScores(e: HighScoreEntry, sorted: seq<HighScoreEntry>)
    ensures var p := InsertPosition(e, sorted);
      && (forall k :: 0 <= k < p ==> sorted[k].score >= e.score)
      && (p < |sorted| ==> sorted[p].score < e.score)
  {
    if sorted != [] && sorted[0].score >= e.score {
      var tail := sorted[1..];
      InsertPositionScores(e, tail);
      forall k | 0 <= k < InsertPosition(e, sorted) ensures sorted[k].score >= e.score {
        if k > 0 {
          assert sorted[k] == tail[k - 1];
        }
      }
    }
  }

  /** Splitting behind the head of a list is splitting its tail one place earlier. */
  lemma ConsSplit<T>(s: seq<T>, x: T, q: nat)
    requires q < |s|
    ensures [s[0]] + (s[1..][..q] + [x] + s[1..][q..]) == s[..q + 1] + [x] + s[q + 1..]
  {
    assert s[..q + 1] == [s[0]] + s[1..][..q];
    assert s[q + 1..] == s[1..][q..];
  }

  /**
   * Insertion places the entry at its insertion position, moving nothing
   * else; with InsertPositionScores, a later entry never overtakes an
   * earlier one of equal score.
   */
  lemma {:induction false} InsertPlacement(e: HighScoreEntry, sorted: seq<HighScoreEntry>)
    ensures var p := InsertPosition(e, sorted);
      InsertByScore(e, sorted) == sorted[..p] + [e] + sorted[p..]
  {
    if sorted != [] && sorted[0].score >= e.score {
      var tail := sorted[1..];
      var q := InsertPosition(e, tail);
      InsertPlacement(e, tail);
      ConsSplit(sorted, e, q);
    } else {
      assert sorted[..0] == [] && sorted[0..] == sorted;
    }
  }

  /** Insertion brings in no score above a bound that the entry and the list respect. */
  lemma InsertBelow(e: HighScoreEntry, s: seq<HighScoreEntry>, bound: int)
    requires e.score <= bound
    requires forall k :: 0 <= k < |s| ==> s[k].score <= bound
    ensures forall k :: 0 <= k < |InsertByScore(e, s)| ==> InsertByScore(e, s)[k].score <= bound
  {
    var r := InsertByScore(e, s);
    forall k | 0 <= k < |r| ensures r[k].score <= bound {
      assert r[k] in multiset(r);
      if r[k] != e {
        assert r[k] in multiset(s);
        var m :| 0 <= m < |s| && s[m] == r[k];
      }
    }
  }

  /** Insertion keeps a list sorted by score. */
  lemma {:induction false} InsertKeepsSorted(e: HighScoreEntry, sorted: seq<HighScoreEntry>)
    requires SortedByScore(sorted)
    ensures SortedByScore(InsertByScore(e, sorted))
  {
    if sorted != [] && sorted[0].score >= e.score {
      var tail := sorted[1..];
      var rest := InsertByScore(e, tail);
      var r := [sorted[0]] + rest;
      InsertKeepsSorted(e, tail);
      forall k | 0 <= k < |tail| ensures tail[k].score <= sorted[0].score {
        assert tail[k] == sorted[k + 1];
      }
      InsertBelow(e, tail, sorted[0].score);
      forall i, j | 0 <= i < j < |r| ensures r[i].score >= r[j].score {
        assert r[j] == rest[j - 1];
        if i > 0 {
          assert r[i] == rest[i - 1];
        }
      }
      assert InsertByScore(e, sorted) == r;
    }
  }

  /** An entry scoring no more than any other goes to the end. */
  lemma {:induction false} InsertLowestAppends(e: HighScoreEntry, sorted: seq<HighScoreEntry>)
    requires forall k :: 0 <= k < |sorted| ==> sorted[k].score >= e.score
    ensures InsertByScore(e, sorted) == sorted + [e]
  {
    if sorted != [] {
      InsertLowestAppends(e, sorted[1..]);
      assert sorted == [sorted[0]] + sorted[1..];
    }
  }

  /**
   * The entries sorted by score, highest first, by a stable insertion sort:
   * the order of a comparison sort whose comparator is the score difference
   * and which keeps equal entries in their input order.
   */
  function SortByScore(s: seq<HighScoreEntry>): (r: seq<HighScoreEntry>)
    ensures |r| == |s|
    ensures multiset(r) == multiset(s)
    ensures SortedByScore(r)
  {
    if s == [] then []
    else
      assert s == s[..|s| - 1] + [s[|s| - 1]];
      var sortedPrefix := SortByScore(s[..|s| - 1]);
      InsertKeepsSorted(s[|s| - 1], sortedPrefix);
      InsertByScore(s[|s| - 1], sortedPrefix)
  }

  /** A list already sorted by score comes out of the sort unchanged: the sort is stable. */
  lemma {:induction false} SortedIsUnchanged(s: seq<HighScoreEntry>)
    requires SortedByScore(s)
    ensures SortByScore(s) == s
  {
    if s != [] {
      var prefix, last := s[..|s| - 1], s[|s| - 1];
      assert s == prefix + [last];
      assert SortedByScore(prefix) by {
        forall i, j | 0 <= i < j < |prefix| ensures prefix[i].score >= prefix[j].score {
          assert prefix[i] == s[i] && prefix[j] == s[j];
        }
      }
      assert forall k :: 0 <= k < |prefix| ==> prefix[k].score >= last.score by {
        forall k | 0 <= k < |prefix| ensures prefix[k].score >= last.score {
          assert prefix[k] == s[k];
        }
      }
      SortedIsUnchanged(prefix);
      InsertLowestAppends(last, prefix);
      assert SortByScore(s) == InsertByScore(last, SortByScore(prefix));
    }
  }

  /** Adding one entry to a sorted table sorts it by a single insertion. */
  lemma AppendSortsByInsertion(table: seq<HighScoreEntry>, e: HighScoreEntry)
    requires SortedByScore(table)
    ensures SortByScore(table + [e]) == InsertByScore(e, table)
  {
    assert (table + [e])[..|table|] == table;
    SortedIsUnchanged(table);
  }

  /** The best MAX_HIGH_SCORES entries, highest first: sort, then keep the first ten. */
  function TopHighScores(entries: seq<HighScoreEntry>): (r: seq<HighScoreEntry>)
    ensures |r| == Min(|entries|, MAX_HIGH_SCORES)
    ensures SortedByScore(r)
  {
    SortByScore(entries)[..Min(|entries|, MAX_HIGH_SCORES)]
  }

  /**
   * The table keeps the top scores: every kept entry is one of the inputs,
   * and no entry left out scores more than a kept one.
   */
  lemma TopHighScoresKeepsBest(entries: seq<HighScoreEntry>)
    ensures multiset(TopHighScores(entries)) <= multiset(entries)
    ensures var sorted := SortByScore(entries);
            var kept := TopHighScores(entries);
            && multiset(kept) + multiset(sorted[|kept|..]) == multiset(entries)
            && forall x, y :: x in kept && y in sorted[|kept|..] ==> x.score >= y.score
  {
    var sorted := SortByScore(entries);
    var kept := TopHighScores(entries);
    assert sorted == kept + sorted[|kept|..];
    forall x, y | x in kept && y in sorted[|kept|..] ensures x.score >= y.score {
      var i :| 0 <= i < |kept| && kept[i] == x;
      var j :| 0 <= j < |sorted[|kept|..]| && sorted[|kept|..][j] == y;
      assert sorted[i] == x && sorted[|kept| + j] == y;
    }
  }

  /** No kept entry scores above a bound that every input respects. */
  lemma TopHighScoresBounded(entries: seq<HighScoreEntry>, bound: int)
    requires forall i :: 0 <= i < |entries| ==> entries[i].score <= bound
    ensures forall i :: 0 <= i < |TopHighScores(entries)| ==> TopHighScores(entries)[i].score <= bound
  {
    var kept := TopHighScores(entries);
    TopHighScoresKeepsBest(entries);
    forall i | 0 <= i < |kept| ensures kept[i].score <= bound {
      assert kept[i] in multiset(entries);
      var j :| 0 <= j < |entries| && entries[j] == kept[i];
    }
  }

  /**
   * A new entry that scores no more than any entry of a full table is not
   * kept, even when it ties the lowest: the entry already there stays.
   */
  lemma TieAtTenthNotKept(table: seq<HighScoreEntry>, e: HighScoreEntry)
    requires SortedByScore(table) && |table| == MAX_HIGH_SCORES
    requires forall k :: 0 <= k < |table| ==> table[k].score >= e.score
    ensures TopHighScores(table + [e]) == table
  {
    AppendSortsByInsertion(table, e);
    InsertLowestAppends(e, table);
    assert (table + [e])[..MAX_HIGH_SCORES] == table;
  }

  /** The first game's entry alone makes the table. */
  lemma TopOfFirstGame(e: HighScoreEntry)
    ensures TopHighScores([] + [e]) == [e]
  {
    assert [] + [e] == [e];
    SortedIsUnchanged([e]);
  }

  /** A second entry that scores higher than the only one goes in front of it. */
  lemma TopOfBetterSecond(e1: HighScoreEntry, e2: HighScoreEntry)
    requires e1.score < e2.score
    ensures TopHighScores([e1] + [e2]) == [e2, e1]
  {
    AppendSortsByInsertion([e1], e2);
    assert InsertByScore(e2, [e1]) == [e2, e1];
  }

  // ---------------------------------------------------------------------------
  // Joker counts

  /**
   * Merges one game's joker activations into the stored counts, one added
   * variant at a time, in whatever order the variants come.
   */
  method MergeJokerCounts(stored: map<JokerType, int>, added: map<JokerType, int>)
    returns (merged: map<JokerType, int>)
    ensures forall t :: t in merged <==> t in stored || t in added
    ensures forall t :: t in added ==> merged[t] == CountOf(stored, t) + added[t]
    ensures forall t :: t in stored && t !in added ==> merged[t] == stored[t]
  {
    merged := stored;
    var remaining := added.Keys;
    while remaining != {}
      invariant remaining <= added.Keys
      invariant forall t :: t in merged <==> t in stored || (t in added && t !in remaining)
      invariant forall t :: t in added && t !in remaining ==> merged[t] == CountOf(stored, t) + added[t]
      invariant forall t :: t in stored && !(t in added && t !in remaining) ==> merged[t] == stored[t]
      decreases |remaining|
    {
      var t :| t in remaining;
      merged := merged[t := CountOf(merged, t) + added[t]];
      remaining := remaining - {t};
    }
  }

  // ---------------------------------------------------------------------------
  // The statistics store

  /**
   * The entry a finished game contributes to the high-score table: its final
   * score, match time, deck mode and top multiplier, stamped with the date.
   */
  function NewEntry(result: GameResult, date: string): (e: HighScoreEntry)
    ensures e.score == result.finalScore && e.matchTime == result.matchTime
    ensures e.deckMode == result.deckMode && e.streakMultiplierMax == result.maxStreakMultiplier
    ensures e.date == date
  {
    HighScoreEntry(result.finalScore, result.matchTime, result.deckMode, date, result.maxStreakMultiplier)
  }

  class StatsStore {
    var stats: GameStats

    /**
     * The table is sorted by score and holds at most ten entries, none of
     * them above the best score, and never more entries than games played.
     */
    predicate Valid()
      reads this
    {
      && |stats.highScores| <= MAX_HIGH_SCORES
      && |stats.highScores| <= stats.totalGamesPlayed
      && SortedByScore(stats.highScores)
      && forall i :: 0 <= i < |stats.highScores| ==> stats.highScores[i].score <= stats.bestScore
    }

    constructor ()
      ensures Valid() && stats == DEFAULT_STATS
    {
      stats := DEFAULT_STATS;
    }

    /**
     * Folds one finished game into the statistics: one more game, its score
     * added to the total, the best score and best streak multiplier raised
     * to it, the best time lowered to it (or taken outright while no time is
     * recorded, stored as 0), the accuracy counters summed, the joker counts
     * merged, and its entry placed into the high-score table. The date is
     * that of the clock at the call.
     */
    method RecordGameResult(result: GameResult, date: string)
      requires Valid()
      modifies this
      ensures Valid()
      ensures var s := old(stats);
        stats == s.(
          totalGamesPlayed := s.totalGamesPlayed + 1,
          totalBBEarned := s.totalBBEarned + result.finalScore,
          bestScore := Max(s.bestScore, result.finalScore),
          bestMatchTime := if s.bestMatchTime == 0 then result.matchTime else Min(s.bestMatchTime, result.matchTime),
          bestStreakMultiplier := Max(s.bestStreakMultiplier, result.maxStreakMultiplier),
          totalGuesses := s.totalGuesses + result.totalGuesses,
          exactMatches := s.exactMatches + result.exactMatches,
          rankMatches := s.rankMatches + result.rankMatches,
          colorMatches := s.colorMatches + result.colorMatches,
          jokersActivated := stats.jokersActivated,
          highScores := TopHighScores(s.highScores + [NewEntry(result, date)]))
      ensures var before, added := old(stats.jokersActivated), result.jokersActivated;
        && (forall t :: t in stats.jokersActivated <==> t in before || t in added)
        && (forall t :: t in added ==> stats.jokersActivated[t] == CountOf(before, t) + added[t])
        && (forall t :: t in before && t !in added ==> stats.jokersActivated[t] == before[t])
    {
      var s := stats;
      var entry := NewEntry(result, date);
      var highScores := TopHighScores(s.highScores + [entry]);
      var jokers := MergeJokerCounts(s.jokersActivated, result.jokersActivated);
      stats := s.(
        totalGamesPlayed := s.totalGamesPlayed + 1,
        totalBBEarned := s.totalBBEarned + result.finalScore,
        bestScore := Max(s.bestScore, result.finalScore),
        bestMatchTime := if s.bestMatchTime == 0 then result.matchTime else Min(s.bestMatchTime, result.matchTime),
        bestStreakMultiplier := Max(s.bestStreakMultiplier, result.maxStreakMultiplier),
        totalGuesses := s.totalGuesses + result.totalGuesses,
        exactMatches := s.exactMatches + result.exactMatches,
        rankMatches := s.rankMatches + result.rankMatches,
        colorMatches := s.colorMatches + result.colorMatches,
        jokersActivated := jokers,
        highScores := highScores);
      TopHighScoresBounded(s.highScores + [entry], stats.bestScore);
    }

    /** Every statistic back to its default. */
    method ResetStats()
      modifies this
      ensures Valid() && stats == DEFAULT_STATS
    {
      stats := DEFAULT_STATS;
    }
  }

  /**
   * Two games recorded on fresh statistics: a 500-point game of 120 seconds
   * with one red joker, then a 1000-point game of 90 seconds with two black
   * jokers. The sums, the best values, both table entries (the better one
   * first) and the merged joker counts follow.
   */
  method TwoGamesExample(date: string) returns (stats: GameStats)
    ensures stats.totalGamesPlayed == 2 && stats.totalBBEarned == 1500
    ensures stats.bestScore == 1000 && stats.bestMatchTime == 90 && stats.bestStreakMultiplier == 8
    ensures |stats.highScores| == 2 && stats.highScores[0].score == 1000 && stats.highScores[1].score == 500
    ensures CountOf(stats.jokersActivated, RedJoker) == 1 && CountOf(stats.jokersActivated, BlackJoker) == 2
  {
    var store := new StatsStore();
    var first := GameResult(500, 120, Deck36, 4, 36, 5, 10, 8,
                            map[RedJoker := 1, BlackJoker := 0, GreenJoker := 0]);
    var second := first.(finalScore := 1000, matchTime := 90, maxStreakMultiplier := 8,
                         jokersActivated := map[RedJoker := 0, BlackJoker := 2, GreenJoker := 0]);
    var e1, e2 := NewEntry(first, date), NewEntry(second, date);
    TopOfFirstGame(e1);
    TopOfBetterSecond(e1, e2);
    store.RecordGameResult(first, date);
    ghost var s1 := store.stats;
    assert s1.highScores == [e1];
    store.RecordGameResult(second, date);
    assert store.stats.highScores == [e2, e1];
    stats := store.stats;
  }
}
