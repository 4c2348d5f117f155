/**
 * `Array.prototype.sort` with a comparator, for comparators that describe a total preorder:
 * `le(a, b)` stands for `compare(a, b) <= 0`. ECMAScript's sort is stable, so the result is the
 * one insertion sort produces when each element is inserted after every element not greater than it.
 */
module Sorting {
  import opened Seqs

  ghost predicate TotalPreorder<T(!new)>(le: (T, T) -> bool) {
    (forall a, b :: le(a, b) || le(b, a)) &&
    (forall a, b, c :: le(a, b) && le(b, c) ==> le(a, c))
  }

  ghost predicate SortedBy<T>(s: seq<T>, le: (T, T) -> bool) {
    forall i, j :: 0 <= i < j < |s| ==> le(s[i], s[j])
  }

  /** Inserts `x` after the leading elements that are not greater than it. */
  function Insert<T>(x: T, s: seq<T>, le: (T, T) -> bool): (r: seq<T>)
    ensures |r| == |s| + 1 && multiset(r) == multiset(s) + multiset{x}
  {
    if s == [] then [x]
    else if le(s[0], x) then
      assert s == [s[0]] + s[1..];
      [s[0]] + Insert(x, s[1..], le)
    else [x] + s
  }

  lemma {:induction false} InsertSorted<T(!new)>(x: T, s: seq<T>, le: (T, T) -> bool)
    requires TotalPreorder(le) && SortedBy(s, le)
    ensures SortedBy(Insert(x, s, le), le)
  {
    if s == [] {
    } else if le(s[0], x) {
      InsertSorted(x, s[1..], le);
      var tail := Insert(x, s[1..], le);
      forall j | 0 <= j < |tail|
        ensures le(s[0], tail[j])
      {
        assert tail[j] in multiset(tail);
        assert tail[j] in multiset(s[1..]) || tail[j] == x;
        if tail[j] != x {
          var k :| 0 <= k < |s[1..]| && s[1..][k] == tail[j];
          assert s[k + 1] == tail[j];
        }
      }
    } else {
      assert le(x, s[0]);
    }
  }

  /** The stable sort of `s` under `le`. */
  function SortBy<T>(s: seq<T>, le: (T, T) -> bool): (r: seq<T>)
    ensures multiset(r) == multiset(s) && |r| == |s|
  {
    if s == [] then []
    else
      var init, last := s[..|s| - 1], s[|s| - 1];
      assert s == init + [last];
      Insert(last, SortBy(init, le), le)
  }

  lemma {:induction false} SortBySorted<T(!new)>(s: seq<T>, le: (T, T) -> bool)
    requires TotalPreorder(le)
    ensures SortedBy(SortBy(s, le), le)
  {
    if s != [] {
      SortBySorted(s[..|s| - 1], le);
      InsertSorted(s[|s| - 1], SortBy(s[..|s| - 1], le), le);
    }
  }

  /** The elements the order cannot tell apart from `x`. */
  function Tied<T>(x: T, le: (T, T) -> bool): T -> bool {
    (y: T) => le(x, y) && le(y, x)
  }

  /** Inserting `y` into a sorted sequence puts it after every element tied with it. */
  lemma {:induction false} InsertTies<T(!new)>(x: T, y: T, t: seq<T>, le: (T, T) -> bool)
    requires TotalPreorder(le) && SortedBy(t, le)
    ensures Filter(Tied(x, le), Insert(y, t, le)) ==
      Filter(Tied(x, le), t) + (if Tied(x, le)(y) then [y] else [])
  {
    var p := Tied(x, le);
    var ys := if p(y) then [y] else [];
    if t == [] {
      FilterCons(p, y, []);
      assert [] + ys == ys;
    } else if le(t[0], y) {
      var head, rest := if p(t[0]) then [t[0]] else [], t[1..];
      SortedTail(t, le);
      InsertTies(x, y, rest, le);
      FilterCons(p, t[0], Insert(y, rest, le));
      ConcatAssociative(head, Filter(p, rest), ys);
    } else {
      InsertTiesAtFront(x, y, t, le);
    }
  }

  /** When `y` goes in front, no element tied with it follows, so it still comes after its ties. */
  lemma InsertTiesAtFront<T(!new)>(x: T, y: T, t: seq<T>, le: (T, T) -> bool)
    requires TotalPreorder(le) && SortedBy(t, le) && t != [] && !le(t[0], y)
    ensures Filter(Tied(x, le), Insert(y, t, le)) ==
      Filter(Tied(x, le), t) + (if Tied(x, le)(y) then [y] else [])
  {
    var p := Tied(x, le);
    assert Insert(y, t, le) == [y] + t;
    FilterCons(p, y, t);
    if p(y) {
      NoTiesAbove(x, y, t, le);
      assert [y] + [] == [] + [y];
    } else {
      assert [] + Filter(p, t) == Filter(p, t) + [];
    }
  }

  lemma SortedTail<T>(t: seq<T>, le: (T, T) -> bool)
    requires SortedBy(t, le) && t != []
    ensures SortedBy(t[1..], le)
  {
    assert forall i :: 0 <= i < |t| - 1 ==> t[1..][i] == t[i + 1];
  }

  lemma ConcatAssociative<T>(a: seq<T>, b: seq<T>, c: seq<T>)
    ensures a + (b + c) == (a + b) + c
  {
  }

  /** Nothing in a sorted sequence that starts above `y` is tied with an `x` that `y` is tied with. */
  lemma NoTiesAbove<T(!new)>(x: T, y: T, t: seq<T>, le: (T, T) -> bool)
    requires TotalPreorder(le) && SortedBy(t, le) && t != [] && !le(t[0], y) && Tied(x, le)(y)
    ensures Filter(Tied(x, le), t) == []
  {
    forall k | 0 <= k < |t|
      ensures !Tied(x, le)(t[k])
    {
      if k > 0 {
        assert le(t[0], t[k]);
      }
    }
    FilterNone(Tied(x, le), t);
  }

  /**
   * `SortBy` is stable: the elements tied with any `x` come out in the order they went in.
   */
  lemma {:induction false} SortByStable<T(!new)>(s: seq<T>, le: (T, T) -> bool, x: T)
    requires TotalPreorder(le)
    ensures Filter(Tied(x, le), SortBy(s, le)) == Filter(Tied(x, le), s)
  {
    if s != [] {
      var init, last := s[..|s| - 1], s[|s| - 1];
      assert s == init + [last];
      SortByStable(init, le, x);
      SortBySorted(init, le);
      InsertTies(x, last, SortBy(init, le), le);
      FilterConcat(Tied(x, le), init, [last]);
      FilterCons(Tied(x, le), last, []);
    }
  }
}
