/**
 * The JavaScript engines' `Array.prototype.sort` is stable. Every sort in the
 * modelled code orders records by a numeric key, larger first, so a stable sort
 * is the same as sorting the records' positions by (key descending, position
 * ascending). This module sorts lists of positions that way.
 */
module StableSort {

  /** Position `i` goes before position `j`: a larger key, or an equal key and an earlier position. */
  predicate Before(key: seq<real>, i: nat, j: nat)
    requires i < |key| && j < |key|
  {
    key[i] > key[j] || (key[i] == key[j] && i < j)
  }

  predicate InBounds(key: seq<real>, s: seq<nat>)
  {
    forall k :: 0 <= k < |s| ==> s[k] < |key|
  }

  predicate Sorted(key: seq<real>, s: seq<nat>)
    requires InBounds(key, s)
  {
    forall a, b :: 0 <= a < b < |s| ==> Before(key, s[a], s[b])
  }

  predicate Distinct(s: seq<nat>)
  {
    forall a, b :: 0 <= a < b < |s| ==> s[a] != s[b]
  }

  /** The positions 0, 1, ..., n-1 in order. */
  function Range(n: nat): (r: seq<nat>)
    ensures |r| == n
    ensures forall k :: 0 <= k < n ==> r[k] == k
  {
    if n == 0 then [] else Range(n - 1) + [n - 1]
  }

  function Insert(key: seq<real>, x: nat, s: seq<nat>): (r: seq<nat>)
    requires x < |key| && InBounds(key, s) && Sorted(key, s) && x !in s
    ensures multiset(r) == multiset(s) + multiset{x}
    ensures |r| == |s| + 1
    ensures InBounds(key, r) && Sorted(key, r)
  {
    if s == [] then [x]
    else if Before(key, x, s[0]) then
      ConsSorted(key, x, s);
      [x] + s
    else
      assert s == [s[0]] + s[1..];
      var rest := Insert(key, x, s[1..]);
      HeadGoesFirst(key, x, s, rest);
      ConsSorted(key, s[0], rest);
      [s[0]] + rest
  }

  /** When x does not go before the head of a sorted list, the head goes before x and everything after it. */
  lemma HeadGoesFirst(key: seq<real>, x: nat, s: seq<nat>, rest: seq<nat>)
    requires x < |key| && InBounds(key, s) && Sorted(key, s) && x !in s
    requires s != [] && !Before(key, x, s[0])
    requires InBounds(key, rest) && multiset(rest) == multiset(s[1..]) + multiset{x}
    ensures forall k :: 0 <= k < |rest| ==> Before(key, s[0], rest[k])
  {
    forall k | 0 <= k < |rest|
      ensures Before(key, s[0], rest[k])
    {
      assert rest[k] in multiset(rest);
      if rest[k] != x {
        assert rest[k] in s[1..];
        var b :| 0 <= b < |s[1..]| && s[1..][b] == rest[k];
        assert s[b + 1] == rest[k];
      }
    }
  }

  /** Putting in front of a sorted list an element that goes before all of it keeps it sorted. */
  lemma ConsSorted(key: seq<real>, y: nat, s: seq<nat>)
    requires y < |key| && InBounds(key, s) && Sorted(key, s)
    requires forall k :: 0 <= k < |s| ==> Before(key, y, s[k])
    ensures InBounds(key, [y] + s) && Sorted(key, [y] + s)
  {
  }

  /** Insertion sort: a stable sort by key, larger keys first. */
  function SortDesc(key: seq<real>, s: seq<nat>): (r: seq<nat>)
    requires InBounds(key, s) && Distinct(s)
    ensures multiset(r) == multiset(s)
    ensures |r| == |s|
    ensures InBounds(key, r) && Sorted(key, r)
  {
    if s == [] then []
    else
      assert s == [s[0]] + s[1..];
      var rest := SortDesc(key, s[1..]);
      assert s[0] !in multiset(rest) by {
        assert forall b :: 0 <= b < |s[1..]| ==> s[1..][b] == s[b + 1] != s[0];
      }
      Insert(key, s[0], rest)
  }

  /** A sorted list has no repeated positions. */
  lemma SortedDistinct(key: seq<real>, s: seq<nat>)
    requires InBounds(key, s) && Sorted(key, s)
    ensures Distinct(s)
  {
  }

  /**
   * In a sorted list every position that goes before an element of the list and
   * occurs in the list occurs earlier: a prefix of a sorted list is closed
   * under "goes before".
   */
  lemma {:induction false} BeforeComesEarlier(key: seq<real>, s: seq<nat>, a: nat, y: nat)
    requires InBounds(key, s) && Sorted(key, s)
    requires a < |s| && y < |key| && y in s && Before(key, y, s[a])
    ensures y in s[..a]
  {
    var b :| 0 <= b < |s| && s[b] == y;
    if b < a {
      assert s[..a][b] == y;
    }
  }

  /** A prefix of a sorted list holds everything in the list that goes before any of its elements. */
  lemma PrefixClosed(key: seq<real>, s: seq<nat>, k: nat, i: nat, j: nat)
    requires InBounds(key, s) && Sorted(key, s)
    requires k <= |s| && i < |key| && j < |key|
    requires i in s[..k] && j in s && Before(key, j, i)
    ensures j in s[..k]
  {
    var a :| 0 <= a < k && s[..k][a] == i;
    BeforeComesEarlier(key, s, a, j);
    assert s[..a] == s[..k][..a];
  }

  /** In a strictly increasing list every element occurs exactly once. */
  lemma {:induction false} OccursOnce(s: seq<nat>, j: nat)
    requires forall a, b :: 0 <= a < b < |s| ==> s[a] < s[b]
    requires j < |s|
    ensures multiset(s)[s[j]] == 1
  {
    var x := s[j];
    assert s == s[..j] + [x] + s[j + 1..];
    assert x !in s[..j] && x !in s[j + 1..];
    assert multiset(s[..j])[x] == 0 && multiset(s[j + 1..])[x] == 0;
  }
}
