/**
 * Keeping one element per key: the elements that pass `keep` are grouped by `key`, and each group
 * keeps its element of largest `size`, the earliest one on ties. This is a JavaScript `Map` filled
 * by a loop that `set`s a key only when it is new or the element is strictly larger, so the keys
 * iterate in the order of their first insertion.
 */
module BestPerKey {
  import opened Seqs

  /** The map after a prefix: its keys in insertion order and, per key, the index of its element. */
  datatype Grouping<K> = Grouping(keys: seq<K>, best: map<K, nat>)

  ghost predicate Shape<K(!new)>(g: Grouping<K>, n: nat) {
    (forall k :: k in g.best <==> k in g.keys) &&
    (forall k :: k in g.best ==> g.best[k] < n) &&
    Distinct(g.keys)
  }

  /** The loop over `xs`: a kept element replaces the stored one of its key only when strictly larger. */
  function Group<T(!new), K(==,!new)>(xs: seq<T>, keep: T -> bool, key: T -> K, size: T -> real): (g: Grouping<K>)
    ensures Shape(g, |xs|)
    decreases |xs|
  {
    if xs == [] then Grouping([], map[])
    else
      var n := |xs| - 1;
      var g := Group(xs[..n], keep, key, size);
      var x := xs[n];
      if !keep(x) then g
      else if key(x) !in g.best then Grouping(g.keys + [key(x)], g.best[key(x) := n])
      else if size(x) > size(xs[g.best[key(x)]]) then Grouping(g.keys, g.best[key(x) := n])
      else g
  }

  /** The map's values in key order: `Array.from(map.values())`. */
  function Picked<T(!new), K(==,!new)>(xs: seq<T>, keep: T -> bool, key: T -> K, size: T -> real): (r: seq<T>)
    ensures |r| == |Group(xs, keep, key, size).keys|
  {
    var g := Group(xs, keep, key, size);
    seq(|g.keys|, i requires 0 <= i < |g.keys| => xs[g.best[g.keys[i]]])
  }

  /** Every kept element has its key in the map, and the map holds only kept elements under their own key. */
  lemma {:induction false} GroupSound<T(!new), K(!new)>(xs: seq<T>, keep: T -> bool, key: T -> K, size: T -> real)
    ensures forall j :: 0 <= j < |xs| && keep(xs[j]) ==> key(xs[j]) in Group(xs, keep, key, size).best
    ensures forall k :: k in Group(xs, keep, key, size).best ==>
      keep(xs[Group(xs, keep, key, size).best[k]]) && key(xs[Group(xs, keep, key, size).best[k]]) == k
    decreases |xs|
  {
    if xs != [] {
      var n := |xs| - 1;
      var prefix := xs[..n];
      var g, g' := Group(prefix, keep, key, size), Group(xs, keep, key, size);
      GroupSound(prefix, keep, key, size);
      assert forall j :: 0 <= j < n ==> prefix[j] == xs[j];
      forall k | k in g'.best
        ensures keep(xs[g'.best[k]]) && key(xs[g'.best[k]]) == k
      {
        var x := xs[n];
        if keep(x) && k == key(x) && g'.best[k] == n {
        } else {
          assert k in g.best && g'.best[k] == g.best[k];
          assert keep(prefix[g.best[k]]) && key(prefix[g.best[k]]) == k;
          assert prefix[g.best[k]] == xs[g.best[k]];
        }
      }
    }
  }

  /** `w` is the earliest of the largest kept elements of key `k`. */
  ghost predicate EarliestBest<T(!new), K(!new)>(xs: seq<T>, keep: T -> bool, key: T -> K, size: T -> real, k: K, w: nat)
    requires w < |xs|
  {
    (forall j :: 0 <= j < w && keep(xs[j]) && key(xs[j]) == k ==> size(xs[j]) < size(xs[w])) &&
    (forall j :: w <= j < |xs| && keep(xs[j]) && key(xs[j]) == k ==> size(xs[j]) <= size(xs[w]))
  }

  /** Each key holds the largest of its kept elements, the earliest one on ties. */
  lemma {:induction false} GroupBest<T(!new), K(!new)>(xs: seq<T>, keep: T -> bool, key: T -> K, size: T -> real)
    ensures forall k :: k in Group(xs, keep, key, size).best ==>
      EarliestBest(xs, keep, key, size, k, Group(xs, keep, key, size).best[k])
    decreases |xs|
  {
    if xs != [] {
      var n := |xs| - 1;
      var prefix := xs[..n];
      var g, g' := Group(prefix, keep, key, size), Group(xs, keep, key, size);
      GroupBest(prefix, keep, key, size);
      GroupSound(prefix, keep, key, size);
      forall j | 0 <= j < n
        ensures xs[j] == prefix[j]
      {
      }
      forall k | k in g'.best
        ensures EarliestBest(xs, keep, key, size, k, g'.best[k])
      {
        if g'.best[k] == n {
          forall j | 0 <= j < n && keep(xs[j]) && key(xs[j]) == k
            ensures size(xs[j]) < size(xs[n])
          {
            assert k in g.best;
            assert EarliestBest(prefix, keep, key, size, k, g.best[k]);
          }
        } else {
          assert EarliestBest(prefix, keep, key, size, k, g'.best[k]);
        }
      }
    }
  }

  /** Some kept element of key `k` comes before index `q`. */
  ghost predicate AppearsBefore<T(!new), K(!new)>(xs: seq<T>, keep: T -> bool, key: T -> K, k: K, q: int) {
    exists p :: 0 <= p < q && p < |xs| && keep(xs[p]) && key(xs[p]) == k
  }

  /** The keys are in the order of their first kept element. */
  lemma {:induction false} GroupOrder<T(!new), K(!new)>(xs: seq<T>, keep: T -> bool, key: T -> K, size: T -> real)
    ensures forall a, b, q ::
      (0 <= a < b < |Group(xs, keep, key, size).keys| && 0 <= q < |xs| && keep(xs[q]) &&
       key(xs[q]) == Group(xs, keep, key, size).keys[b]) ==>
      AppearsBefore(xs, keep, key, Group(xs, keep, key, size).keys[a], q)
    decreases |xs|
  {
    if xs != [] {
      var n := |xs| - 1;
      var prefix := xs[..n];
      var g, g' := Group(prefix, keep, key, size), Group(xs, keep, key, size);
      GroupOrder(prefix, keep, key, size);
      GroupSound(prefix, keep, key, size);
      forall a, b, q | 0 <= a < b < |g'.keys| && 0 <= q < |xs| && keep(xs[q]) && key(xs[q]) == g'.keys[b]
        ensures AppearsBefore(xs, keep, key, g'.keys[a], q)
      {
        assert g'.keys[a] == g.keys[a];
        if q == n {
          var p := g.best[g.keys[a]];
          assert prefix[p] == xs[p];
        } else {
          assert prefix[q] == xs[q];
          assert b < |g.keys|;
          assert AppearsBefore(prefix, keep, key, g.keys[a], q);
          var p :| 0 <= p < q && p < |prefix| && keep(prefix[p]) && key(prefix[p]) == g.keys[a];
          assert prefix[p] == xs[p];
        }
      }
    }
  }

  /**
   * The values: only kept elements, one per key, each at least as large as every kept element of
   * its key; and every key of a kept element is present.
   */
  lemma PickedBest<T(!new), K(!new)>(xs: seq<T>, keep: T -> bool, key: T -> K, size: T -> real)
    ensures forall i :: 0 <= i < |Picked(xs, keep, key, size)| ==> keep(Picked(xs, keep, key, size)[i])
    ensures forall i, j :: 0 <= i < j < |Picked(xs, keep, key, size)| ==>
      key(Picked(xs, keep, key, size)[i]) != key(Picked(xs, keep, key, size)[j])
    ensures forall q :: 0 <= q < |xs| && keep(xs[q]) ==>
      exists i :: (0 <= i < |Picked(xs, keep, key, size)| &&
        key(Picked(xs, keep, key, size)[i]) == key(xs[q]) && size(xs[q]) <= size(Picked(xs, keep, key, size)[i]))
  {
    var g := Group(xs, keep, key, size);
    var r := Picked(xs, keep, key, size);
    GroupSound(xs, keep, key, size);
    GroupBest(xs, keep, key, size);
    forall i | 0 <= i < |r|
      ensures key(r[i]) == g.keys[i]
    {
    }
    forall q | 0 <= q < |xs| && keep(xs[q])
      ensures exists i :: (0 <= i < |r| && key(r[i]) == key(xs[q]) && size(xs[q]) <= size(r[i]))
    {
      var k := key(xs[q]);
      var i :| 0 <= i < |g.keys| && g.keys[i] == k;
      assert EarliestBest(xs, keep, key, size, k, g.best[k]);
      assert r[i] == xs[g.best[k]];
    }
  }

  /** The values come in the order of the first kept element of their key. */
  lemma PickedOrder<T(!new), K(!new)>(xs: seq<T>, keep: T -> bool, key: T -> K, size: T -> real, a: nat, b: nat, q: nat)
    requires a < b < |Picked(xs, keep, key, size)| && q < |xs| && keep(xs[q]) && key(xs[q]) == key(Picked(xs, keep, key, size)[b])
    ensures AppearsBefore(xs, keep, key, key(Picked(xs, keep, key, size)[a]), q)
  {
    var g := Group(xs, keep, key, size);
    var r := Picked(xs, keep, key, size);
    GroupSound(xs, keep, key, size);
    GroupOrder(xs, keep, key, size);
    assert key(r[a]) == g.keys[a] && key(r[b]) == g.keys[b];
  }
}
