/**
 * The ordering the store applies to "ORDER BY <column> ASC" queries, as a
 * stable insertion sort on a natural-number key: rows with equal keys keep
 * their storage order.
 */
module Ordering {

  /** Keys never decrease along `s`. */
  predicate SortedBy<T>(s: seq<T>, key: T -> nat) {
    forall i, j :: 0 <= i < j < |s| ==> key(s[i]) <= key(s[j])
  }

  /**
   * A rearrangement of `s` with `x` added has every key at least `b` when
   * `x` and every element of `s` do.
   */
  lemma KeysFrom<T>(t: seq<T>, s: seq<T>, x: T, key: T -> nat, b: nat)
    requires multiset(t) == multiset(s) + multiset{x}
    requires b <= key(x) && forall k :: 0 <= k < |s| ==> b <= key(s[k])
    ensures forall k :: 0 <= k < |t| ==> b <= key(t[k])
  {
    forall k | 0 <= k < |t| ensures b <= key(t[k]) {
      assert t[k] in multiset(t);
      if t[k] != x {
        assert t[k] in multiset(s);
        var m :| 0 <= m < |s| && s[m] == t[k];
      }
    }
  }

  /** Putting an element no larger than any key of a sorted sequence in front keeps it sorted. */
  lemma ConsSorted<T>(h: T, t: seq<T>, key: T -> nat)
    requires SortedBy(t, key) && forall k :: 0 <= k < |t| ==> key(h) <= key(t[k])
    ensures SortedBy([h] + t, key)
  {
    forall i, j | 0 <= i < j < |[h] + t| ensures key(([h] + t)[i]) <= key(([h] + t)[j]) {
      assert ([h] + t)[j] == t[j - 1];
      if i > 0 {
        assert ([h] + t)[i] == t[i - 1];
      }
    }
  }

  /** Insert `x` in front of the first element whose key is not smaller. */
  function Insert<T>(x: T, s: seq<T>, key: T -> nat): (r: seq<T>)
    requires SortedBy(s, key)
    ensures SortedBy(r, key)
    ensures multiset(r) == multiset(s) + multiset{x}
    ensures |r| == |s| + 1
  {
    if s == [] || key(x) <= key(s[0]) then
      ConsSorted(x, s, key);
      [x] + s
    else
      var tail := Insert(x, s[1..], key);
      assert s == [s[0]] + s[1..];
      KeysFrom(tail, s[1..], x, key, key(s[0]));
      ConsSorted(s[0], tail, key);
      [s[0]] + tail
  }

  /** `s` rearranged in ascending key order, equal keys in their original order. */
  function SortBy<T>(s: seq<T>, key: T -> nat): (r: seq<T>)
    ensures SortedBy(r, key)
    ensures multiset(r) == multiset(s)
    ensures |r| == |s|
  {
    if s == [] then []
    else
      assert s == [s[0]] + s[1..];
      Insert(s[0], SortBy(s[1..], key), key)
  }

  /** Sorting a sequence that is already in order changes nothing. */
  lemma {:induction false} SortBySortedIsIdentity<T>(s: seq<T>, key: T -> nat)
    requires SortedBy(s, key)
    ensures SortBy(s, key) == s
  {
    if s != [] {
      assert SortedBy(s[1..], key) by {
        forall i, j | 0 <= i < j < |s[1..]| ensures key(s[1..][i]) <= key(s[1..][j]) {
          assert s[1..][i] == s[i + 1] && s[1..][j] == s[j + 1];
        }
      }
      SortBySortedIsIdentity(s[1..], key);
      assert s == [s[0]] + s[1..];
    }
  }

  /** In a sorted sequence no element's key exceeds the last one's. */
  lemma SortedLastIsMax<T>(s: seq<T>, key: T -> nat, y: T)
    requires SortedBy(s, key) && y in s
    ensures key(y) <= key(s[|s| - 1])
  {
    var j :| 0 <= j < |s| && s[j] == y;
  }
}
