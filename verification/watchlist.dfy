/** The watchlist of `useWatchlist`: the watched pair ids, toggled one at a time. */
module Watchlist {
  import opened Seqs

  /** Every pair but `pair`. */
  function Others(pair: string): string -> bool {
    p => p != pair
  }

  /**
   * `toggle`'s updater: a watched pair is removed, any other pair is appended. The pair's
   * membership flips, and the other pairs stay, in the same order.
   */
  function Toggle(prev: seq<string>, pair: string): (next: seq<string>)
    ensures pair in next <==> pair !in prev
    ensures forall p :: p != pair ==> (p in next <==> p in prev)
    ensures Filter(Others(pair), next) == Filter(Others(pair), prev)
  {
    if pair in prev then
      FilterMembers(Others(pair), prev);
      FilterIdempotent(Others(pair), prev);
      Filter(Others(pair), prev)
    else
      FilterConcat(Others(pair), prev, [pair]);
      assert Filter(Others(pair), [pair]) == [];
      prev + [pair]
  }

  /** Toggling never introduces a duplicate. */
  lemma ToggleKeepsDistinct(prev: seq<string>, pair: string)
    requires Distinct(prev)
    ensures Distinct(Toggle(prev, pair))
  {
    if pair in prev {
      FilterDistinct(Others(pair), prev);
    } else {
      var next := prev + [pair];
      forall i, j | 0 <= i < j < |next|
        ensures next[i] != next[j]
      {
        if j == |prev| {
          assert next[i] == prev[i];
        }
      }
    }
  }

  /**
   * Toggling twice restores membership; a pair that was not watched is appended and removed
   * again, which restores the list itself.
   */
  lemma ToggleTwice(prev: seq<string>, pair: string)
    ensures forall p :: p in Toggle(Toggle(prev, pair), pair) <==> p in prev
    ensures pair !in prev ==> Toggle(Toggle(prev, pair), pair) == prev
  {
    if pair !in prev {
      FilterConcat(Others(pair), prev, [pair]);
      assert Filter(Others(pair), [pair]) == [];
      FilterAll(Others(pair), prev);
    }
  }

  /** Toggling a watched pair twice moves it to the end. */
  lemma ToggleTwiceMovesToEnd(prev: seq<string>, pair: string)
    requires pair in prev
    ensures Toggle(Toggle(prev, pair), pair) == Filter(Others(pair), prev) + [pair]
  {
    FilterMembers(Others(pair), prev);
  }

  /** `isWatched`: the pair is in the list. */
  function IsWatched(watchlist: seq<string>, pair: string): (b: bool)
    ensures b <==> exists i :: 0 <= i < |watchlist| && watchlist[i] == pair
  {
    pair in watchlist
  }

  /** After a toggle the pair is watched exactly when it was not before. */
  lemma ToggleFlipsWatched(prev: seq<string>, pair: string)
    ensures IsWatched(Toggle(prev, pair), pair) == !IsWatched(prev, pair)
  {
  }
}
