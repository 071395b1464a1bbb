/**
 * `toChartData`, the same in src/lib/charts.ts and js/charts.js: the parties
 * with seats, largest first, each with its display colour and name.
 *
 * The seat object is given as its keys in insertion order and the aligned
 * seat counts; the party metadata table is a parameter.
 */
module Charts {
  import opened Base
  import opened StableSort

  datatype PartyMeta = PartyMeta(name: string, color: string)

  datatype ChartEntry = ChartEntry(seats: int, color: string, name: string)

  const FallbackColor: string := "#888888"

  /** `meta[key]?.color || '#888888'`: a missing entry or an empty colour falls back. */
  function ColorOf(meta: map<string, PartyMeta>, key: string): (r: string)
    ensures key in meta && meta[key].color != "" ==> r == meta[key].color
    ensures (key !in meta || meta[key].color == "") ==> r == FallbackColor
  {
    if key in meta && meta[key].color != "" then meta[key].color else FallbackColor
  }

  /** `meta[key]?.name || key`: a missing entry or an empty name falls back to the key. */
  function NameOf(meta: map<string, PartyMeta>, key: string): (r: string)
    ensures key in meta && meta[key].name != "" ==> r == meta[key].name
    ensures (key !in meta || meta[key].name == "") ==> r == key
  {
    if key in meta && meta[key].name != "" then meta[key].name else key
  }

  /** The positions below n whose seat count is positive, in key order (the `filter`). */
  function PositiveIndices(seats: seq<int>, n: nat): (r: seq<nat>)
    requires n <= |seats|
    ensures forall k :: 0 <= k < |r| ==> r[k] < n && seats[r[k]] > 0
    ensures forall a, b :: 0 <= a < b < |r| ==> r[a] < r[b]
  {
    if n == 0 then []
    else PositiveIndices(seats, n - 1) + (if seats[n - 1] > 0 then [n - 1] else [])
  }

  lemma {:induction false} PositiveIndicesComplete(seats: seq<int>, n: nat, i: nat)
    requires i < n <= |seats| && seats[i] > 0
    ensures i in PositiveIndices(seats, n)
  {
    var prev := PositiveIndices(seats, n - 1);
    var last: seq<nat> := if seats[n - 1] > 0 then [n - 1] else [];
    assert PositiveIndices(seats, n) == prev + last;
    if i < n - 1 {
      PositiveIndicesComplete(seats, n - 1, i);
      assert i in prev;
    } else {
      assert last == [i];
    }
  }

  function SeatKeys(seats: seq<int>): (r: seq<real>)
    ensures |r| == |seats| && forall i :: 0 <= i < |seats| ==> r[i] == seats[i] as real
  {
    seq(|seats|, i requires 0 <= i < |seats| => seats[i] as real)
  }

  /** The positions of the chart entries: positive seat counts, stably sorted by seats, largest first. */
  function ChartOrder(seats: seq<int>): (r: seq<nat>)
    ensures multiset(r) == multiset(PositiveIndices(seats, |seats|))
    ensures InBounds(SeatKeys(seats), r) && Sorted(SeatKeys(seats), r)
  {
    SortDesc(SeatKeys(seats), PositiveIndices(seats, |seats|))
  }

  /**
   * `toChartData(seatsByParty)`: one entry per party with positive seats,
   * ordered by seats with the larger first and ties in key order, carrying the
   * party's seats and its colour and name with their fallbacks.
   */
  function ToChartData(keys: seq<string>, seats: seq<int>, meta: map<string, PartyMeta>): (r: seq<ChartEntry>)
    requires |keys| == |seats|
    ensures |r| == |ChartOrder(seats)|
    ensures forall k :: 0 <= k < |r| ==> r[k].seats > 0
    ensures forall a, b :: 0 <= a < b < |r| ==> r[a].seats >= r[b].seats
    ensures forall k :: 0 <= k < |r| ==>
      var p := ChartOrder(seats)[k];
      r[k] == ChartEntry(seats[p], ColorOf(meta, keys[p]), NameOf(meta, keys[p]))
  {
    var order := ChartOrder(seats);
    ChartOrderFacts(seats);
    seq(|order|, k requires 0 <= k < |order| =>
      ChartEntry(seats[order[k]], ColorOf(meta, keys[order[k]]), NameOf(meta, keys[order[k]])))
  }

  lemma ChartOrderFacts(seats: seq<int>)
    ensures forall k :: 0 <= k < |ChartOrder(seats)| ==> ChartOrder(seats)[k] < |seats| && seats[ChartOrder(seats)[k]] > 0
    ensures forall a, b :: 0 <= a < b < |ChartOrder(seats)| ==> seats[ChartOrder(seats)[a]] >= seats[ChartOrder(seats)[b]]
  {
    var order := ChartOrder(seats);
    var key := SeatKeys(seats);
    forall k | 0 <= k < |order| ensures seats[order[k]] > 0 {
      assert order[k] in multiset(PositiveIndices(seats, |seats|));
    }
    forall a, b | 0 <= a < b < |order| ensures seats[order[a]] >= seats[order[b]] {
      assert Before(key, order[a], order[b]);
    }
  }

  /** Two parties with equal seats appear in the chart in key order: the sort is stable. */
  lemma ChartTiesInKeyOrder(keys: seq<string>, seats: seq<int>, a: nat, b: nat)
    requires |keys| == |seats|
    requires a < b < |ChartOrder(seats)|
    requires seats[ChartOrder(seats)[a]] == seats[ChartOrder(seats)[b]]
    ensures ChartOrder(seats)[a] < ChartOrder(seats)[b]
  {
  }

  /** Every party with positive seats gets exactly one entry. */
  lemma ChartHasEveryPositive(seats: seq<int>, i: nat)
    requires i < |seats| && seats[i] > 0
    ensures multiset(ChartOrder(seats))[i] == 1
  {
    var pos := PositiveIndices(seats, |seats|);
    PositiveIndicesComplete(seats, |seats|, i);
    var j :| 0 <= j < |pos| && pos[j] == i;
    OccursOnce(pos, j);
  }

  /** The seat counts shown, as a list. */
  function ShownSeats(r: seq<ChartEntry>): (v: seq<int>)
    ensures |v| == |r| && forall k :: 0 <= k < |r| ==> v[k] == r[k].seats
  {
    seq(|r|, k requires 0 <= k < |r| => r[k].seats)
  }

  /** The seats of the positions in s. */
  function SeatsAt(seats: seq<int>, s: seq<nat>): (v: seq<int>)
    requires forall k :: 0 <= k < |s| ==> s[k] < |seats|
    ensures |v| == |s| && forall k :: 0 <= k < |s| ==> v[k] == seats[s[k]]
  {
    seq(|s|, k requires 0 <= k < |s| => seats[s[k]])
  }

  /** Sum of the positive entries among the first n. */
  function SumPositive(seats: seq<int>, n: nat): int
    requires n <= |seats|
  {
    if n == 0 then 0
    else SumPositive(seats, n - 1) + (if seats[n - 1] > 0 then seats[n - 1] else 0)
  }

  /**
   * The chart shows the same multiset of seat counts as the positive entries
   * of the input, so the chart's seats add up to the positive input seats.
   */
  lemma ChartKeepsSeats(keys: seq<string>, seats: seq<int>, meta: map<string, PartyMeta>)
    requires |keys| == |seats|
    ensures multiset(ShownSeats(ToChartData(keys, seats, meta)))
         == multiset(SeatsAt(seats, PositiveIndices(seats, |seats|)))
    ensures Sum(ShownSeats(ToChartData(keys, seats, meta))) == SumPositive(seats, |seats|)
  {
    var order := ChartOrder(seats);
    var pos := PositiveIndices(seats, |seats|);
    assert ShownSeats(ToChartData(keys, seats, meta)) == SeatsAt(seats, order);
    SeatsAtPermutation(seats, order, pos);
    SumPermutation(SeatsAt(seats, order), SeatsAt(seats, pos));
    PositiveSum(seats, |seats|);
  }

  /** Positions holding the same multiset give seat lists holding the same multiset. */
  lemma {:induction false} SeatsAtPermutation(seats: seq<int>, s: seq<nat>, t: seq<nat>)
    requires forall k :: 0 <= k < |s| ==> s[k] < |seats|
    requires forall k :: 0 <= k < |t| ==> t[k] < |seats|
    requires multiset(s) == multiset(t)
    ensures multiset(SeatsAt(seats, s)) == multiset(SeatsAt(seats, t))
    decreases |s|
  {
    if s == [] {
      assert t == [] by { assert |multiset(t)| == 0; }
    } else {
      var x := s[|s| - 1];
      var s' := s[..|s| - 1];
      var j := RemoveLast(s, t);
      var t' := t[..j] + t[j + 1..];
      SeatsAtPermutation(seats, s', t');
      SeatsAtSplit(seats, t, j);
      SeatsAtSplit(seats, s, |s| - 1);
      assert s[..|s| - 1] + s[|s|..] == s';
    }
  }

  /** The last element of s occurs in t at some j, and removing both leaves equal multisets. */
  lemma RemoveLast(s: seq<nat>, t: seq<nat>) returns (j: nat)
    requires s != [] && multiset(s) == multiset(t)
    ensures j < |t| && t[j] == s[|s| - 1]
    ensures multiset(s[..|s| - 1]) == multiset(t[..j] + t[j + 1..])
  {
    var x := s[|s| - 1];
    var s' := s[..|s| - 1];
    assert s == s' + [x];
    assert x in multiset(t);
    j :| 0 <= j < |t| && t[j] == x;
    var t' := t[..j] + t[j + 1..];
    assert t == t[..j] + [x] + t[j + 1..];
    assert multiset(s') + multiset{x} == multiset(t') + multiset{x};
    assert multiset(s') == multiset(s') + multiset{x} - multiset{x};
    assert multiset(t') == multiset(t') + multiset{x} - multiset{x};
  }

  /** Taking one position out of s takes its seat count out of the seat list. */
  lemma SeatsAtSplit(seats: seq<int>, s: seq<nat>, j: nat)
    requires forall k :: 0 <= k < |s| ==> s[k] < |seats|
    requires j < |s|
    ensures multiset(SeatsAt(seats, s)) == multiset(SeatsAt(seats, s[..j] + s[j + 1..])) + multiset{seats[s[j]]}
  {
    var v := SeatsAt(seats, s);
    assert SeatsAt(seats, s[..j] + s[j + 1..]) == v[..j] + v[j + 1..];
    assert v == v[..j] + [v[j]] + v[j + 1..];
  }

  /** The positive entries below n add up to the sum of the seats of PositiveIndices(seats, n). */
  lemma {:induction false} PositiveSum(seats: seq<int>, n: nat)
    requires n <= |seats|
    ensures Sum(SeatsAt(seats, PositiveIndices(seats, n))) == SumPositive(seats, n)
  {
    if n > 0 {
      PositiveSum(seats, n - 1);
      var prev := PositiveIndices(seats, n - 1);
      if seats[n - 1] > 0 {
        assert PositiveIndices(seats, n) == prev + [n - 1];
        var v := SeatsAt(seats, prev + [n - 1]);
        assert v[..|v| - 1] == SeatsAt(seats, prev);
        assert v[|v| - 1] == seats[n - 1];
        assert Sum(v) == Sum(SeatsAt(seats, prev)) + seats[n - 1];
      } else {
        assert PositiveIndices(seats, n) == prev;
      }
    }
  }
}
