/**
 * The highest-averages (D'Hondt) allocator `allocateSeatsFairShare`, which is
 * the same in src/lib/seat-allocation.ts and js/seat-allocation.js.
 *
 * A party record is modelled by its position: `votes[p]` are the votes of the
 * p-th key of the input object and `seats[p]` its seats in the result.
 */
module HighestAverages {
  import opened Base
  import opened StableSort

  /** One pushed entry: the party, the divisor d it was computed with, and v/d. */
  datatype Quotient = Quotient(party: nat, divisor: nat, q: real)

  predicate HasPositive(votes: seq<int>)
  {
    exists p :: 0 <= p < |votes| && votes[p] > 0
  }

  /** Number of parties with positive votes. */
  function Positives(votes: seq<int>): nat
  {
    if votes == [] then 0
    else Positives(votes[..|votes| - 1]) + (if votes[|votes| - 1] > 0 then 1 else 0)
  }

  /** The quotients v/1, ..., v/n of party p, in the order they are pushed. */
  function PartyQuotients(p: nat, v: int, n: nat): (r: seq<Quotient>)
    ensures |r| == n
    ensures forall k :: 0 <= k < n ==> r[k] == Quotient(p, k + 1, v as real / (k + 1) as real)
  {
    if n == 0 then [] else PartyQuotients(p, v, n - 1) + [Quotient(p, n, v as real / n as real)]
  }

  /** The list of quotients as pushed: parties in key order, each party's divisors ascending. */
  function QuotientList(votes: seq<int>, n: nat): (r: seq<Quotient>)
    ensures |r| == n * Positives(votes)
  {
    if votes == [] then []
    else
      var k := |votes| - 1;
      QuotientList(votes[..k], n) + (if votes[k] > 0 then PartyQuotients(k, votes[k], n) else [])
  }

  /** Where the quotient votes[x]/d stands in the pushed list. */
  function Pos(votes: seq<int>, n: nat, x: nat, d: nat): int
    requires x <= |votes|
  {
    n * Positives(votes[..x]) + d - 1
  }

  function Keys(qs: seq<Quotient>): (r: seq<real>)
    ensures |r| == |qs| && forall k :: 0 <= k < |qs| ==> r[k] == qs[k].q
  {
    seq(|qs|, k requires 0 <= k < |qs| => qs[k].q)
  }

  /** `quotients.sort((a, b) => b.q - a.q)`, a stable sort: the pushed positions by descending quotient. */
  function Ranking(votes: seq<int>, n: nat): (r: seq<nat>)
    ensures InBounds(Keys(QuotientList(votes, n)), r) && Sorted(Keys(QuotientList(votes, n)), r)
    ensures |r| == |QuotientList(votes, n)|
  {
    var qs := QuotientList(votes, n);
    SortDesc(Keys(qs), Range(|qs|))
  }

  /** How many positions of s hold a quotient of party x. */
  function CountOf(qs: seq<Quotient>, s: seq<nat>, x: nat): nat
    requires forall k :: 0 <= k < |s| ==> s[k] < |qs|
  {
    if s == [] then 0
    else CountOf(qs, s[..|s| - 1], x) + (if qs[s[|s| - 1]].party == x then 1 else 0)
  }

  /** Seats per party when the quotients at the positions s each win one seat. */
  function Tally(qs: seq<Quotient>, s: seq<nat>, m: nat): (r: seq<int>)
    requires forall k :: 0 <= k < |s| ==> s[k] < |qs|
    ensures |r| == m
  {
    seq(m, x requires 0 <= x < m => CountOf(qs, s, x))
  }

  /** The seats the allocator gives: one per quotient among the first n of the ranking. */
  function HighestAveragesSeats(votes: seq<int>, n: nat): (r: seq<int>)
    requires n == 0 || HasPositive(votes)
    ensures |r| == |votes|
  {
    EnoughQuotients(votes, n);
    var qs := QuotientList(votes, n);
    Tally(qs, Ranking(votes, n)[..n], |votes|)
  }

  /**
   * `allocateSeatsFairShare(votesByParty, totalSeats)`. When some party has
   * positive votes the result is a seat count per input key, zero for parties
   * without positive votes, summing to totalSeats, and never giving a party
   * fewer seats than a party with fewer votes.
   */
  method AllocateSeatsFairShare(votes: seq<int>, totalSeats: nat) returns (seats: seq<int>)
    requires totalSeats == 0 || HasPositive(votes)
    ensures seats == HighestAveragesSeats(votes, totalSeats)
    ensures |seats| == |votes| && Sum(seats) == totalSeats
    ensures forall p :: 0 <= p < |votes| && votes[p] <= 0 ==> seats[p] == 0
    ensures forall a, b :: 0 <= a < |votes| && 0 <= b < |votes| && votes[a] > votes[b] ==> seats[a] >= seats[b]
  {
    var quotients := PushQuotients(votes, totalSeats);
    EnoughQuotients(votes, totalSeats);
    var order := Ranking(votes, totalSeats);
    RankingParties(votes, totalSeats);
    seats := TallyTop(quotients, order, totalSeats, |votes|);
    SeatsProperties(votes, totalSeats);
  }

  /** The two nested loops that push, for every party with positive votes, its quotients v/1 .. v/n. */
  method PushQuotients(votes: seq<int>, n: nat) returns (quotients: seq<Quotient>)
    ensures quotients == QuotientList(votes, n)
  {
    quotients := [];
    for p := 0 to |votes|
      invariant quotients == QuotientList(votes[..p], n)
    {
      var v := votes[p];
      ghost var before := quotients;
      if v > 0 {
        for d := 1 to n + 1
          invariant quotients == before + PartyQuotients(p, v, d - 1)
        {
          quotients := quotients + [Quotient(p, d, v as real / d as real)];
        }
      }
      QuotientListStep(votes, p, n);
    }
    assert votes[..|votes|] == votes;
  }

  /** The loop over the first n sorted quotients, each adding one seat to its party. */
  method TallyTop(qs: seq<Quotient>, order: seq<nat>, n: nat, m: nat) returns (seats: seq<int>)
    requires n <= |order|
    requires forall k :: 0 <= k < |order| ==> order[k] < |qs| && qs[order[k]].party < m
    ensures seats == Tally(qs, order[..n], m)
  {
    seats := seq(m, _ => 0);
    for i := 0 to n
      invariant seats == Tally(qs, order[..i], m)
    {
      TallyStep(qs, order[..i], order[i], m);
      assert order[..i + 1] == order[..i] + [order[i]];
      var party := qs[order[i]].party;
      seats := seats[party := seats[party] + 1];
    }
  }

  /** Every ranked position holds a quotient of one of the input parties. */
  lemma RankingParties(votes: seq<int>, n: nat)
    ensures forall k :: 0 <= k < |Ranking(votes, n)| ==>
      Ranking(votes, n)[k] < |QuotientList(votes, n)| && QuotientList(votes, n)[Ranking(votes, n)[k]].party < |votes|
  {
    var order := Ranking(votes, n);
    forall k | 0 <= k < |order| ensures QuotientList(votes, n)[order[k]].party < |votes| {
      QuotientShape(votes, n, order[k]);
    }
  }

  lemma SeatsProperties(votes: seq<int>, n: nat)
    requires n == 0 || HasPositive(votes)
    ensures var seats := HighestAveragesSeats(votes, n);
      && Sum(seats) == n
      && (forall p :: 0 <= p < |votes| && votes[p] <= 0 ==> seats[p] == 0)
      && (forall a, b :: 0 <= a < |votes| && 0 <= b < |votes| && votes[a] > votes[b] ==> seats[a] >= seats[b])
  {
    SeatsSum(votes, n);
    forall p | 0 <= p < |votes| && votes[p] <= 0 ensures HighestAveragesSeats(votes, n)[p] == 0 {
      NonPositiveGetsNone(votes, n, p);
    }
    forall a, b | 0 <= a < |votes| && 0 <= b < |votes| && votes[a] > votes[b]
      ensures HighestAveragesSeats(votes, n)[a] >= HighestAveragesSeats(votes, n)[b]
    {
      MoreVotesNoFewerSeats(votes, n, a, b);
    }
  }

  // ---------------------------------------------------------------------------
  // The shape of the pushed list

  lemma QuotientListStep(votes: seq<int>, p: nat, n: nat)
    requires p < |votes|
    ensures QuotientList(votes[..p + 1], n)
         == QuotientList(votes[..p], n) + (if votes[p] > 0 then PartyQuotients(p, votes[p], n) else [])
  {
    assert votes[..p + 1][..p] == votes[..p];
  }

  lemma {:induction false} PositivesPrefix(votes: seq<int>, x: nat)
    requires x < |votes| && votes[x] > 0
    ensures Positives(votes[..x]) + 1 <= Positives(votes)
    decreases |votes|
  {
    var k := |votes| - 1;
    assert votes[..k][..x] == votes[..x];
    if x < k {
      PositivesPrefix(votes[..k], x);
      PositivesMonotone(votes, k);
    }
  }

  lemma {:induction false} PositivesMonotone(votes: seq<int>, k: nat)
    requires k <= |votes|
    ensures Positives(votes[..k]) <= Positives(votes)
    decreases |votes|
  {
    if k < |votes| {
      var j := |votes| - 1;
      assert votes[..j][..k] == votes[..k];
      PositivesMonotone(votes[..j], k);
    } else {
      assert votes[..k] == votes;
    }
  }

  lemma {:induction false} EnoughQuotients(votes: seq<int>, n: nat)
    requires n == 0 || HasPositive(votes)
    ensures n <= |QuotientList(votes, n)|
  {
    if n > 0 {
      var p :| 0 <= p < |votes| && votes[p] > 0;
      PositivesPrefix(votes, p);
    }
  }

  /** The quotient votes[x]/d is pushed at position Pos(votes, n, x, d). */
  lemma {:induction false} QuotientAt(votes: seq<int>, n: nat, x: nat, d: nat)
    requires x < |votes| && votes[x] > 0 && 1 <= d <= n
    ensures 0 <= Pos(votes, n, x, d) < |QuotientList(votes, n)|
    ensures QuotientList(votes, n)[Pos(votes, n, x, d)] == Quotient(x, d, votes[x] as real / d as real)
    decreases |votes|
  {
    var k := |votes| - 1;
    var front := QuotientList(votes[..k], n);
    if x == k {
      assert votes[..k] == votes[..x];
    } else {
      assert votes[..k][..x] == votes[..x];
      QuotientAt(votes[..k], n, x, d);
    }
  }

  /** Every pushed entry is a quotient votes[p]/d of a party with positive votes, d in 1..n. */
  lemma {:induction false} QuotientShape(votes: seq<int>, n: nat, i: nat)
    requires i < |QuotientList(votes, n)|
    ensures var e := QuotientList(votes, n)[i];
      && e.party < |votes| && votes[e.party] > 0 && 1 <= e.divisor <= n
      && e.q == votes[e.party] as real / e.divisor as real
      && i == Pos(votes, n, e.party, e.divisor)
    decreases |votes|
  {
    var k := |votes| - 1;
    var front := QuotientList(votes[..k], n);
    if i < |front| {
      QuotientShape(votes[..k], n, i);
      var e := front[i];
      assert votes[..k][..e.party] == votes[..e.party];
    } else {
      assert votes[..k] == votes[..k];
    }
  }

  lemma QuotientDecreasing(v: int, d: nat, d': nat)
    requires v > 0 && 1 <= d < d'
    ensures v as real / d as real > v as real / d' as real
  {
    var a, b := v as real / d as real, v as real / d' as real;
    assert a * d as real == v as real;
    assert b * d' as real == v as real;
    assert b * d as real < v as real;
  }

  lemma QuotientIncreasing(v: int, w: int, d: nat)
    requires v > w && d >= 1
    ensures v as real / d as real > w as real / d as real
  {
  }

  // ---------------------------------------------------------------------------
  // Counting the winning quotients

  lemma {:induction false} TallyStep(qs: seq<Quotient>, s: seq<nat>, e: nat, m: nat)
    requires forall k :: 0 <= k < |s| ==> s[k] < |qs|
    requires e < |qs| && qs[e].party < m
    ensures Tally(qs, s + [e], m) == Tally(qs, s, m)[qs[e].party := Tally(qs, s, m)[qs[e].party] + 1]
  {
    assert (s + [e])[..|s|] == s;
  }

  lemma {:induction false} TallySum(qs: seq<Quotient>, s: seq<nat>, m: nat)
    requires forall k :: 0 <= k < |s| ==> s[k] < |qs| && qs[s[k]].party < m
    ensures Sum(Tally(qs, s, m)) == |s|
    decreases |s|
  {
    if s == [] {
      var t := Tally(qs, s, m);
      assert forall x :: 0 <= x < m ==> t[x] == 0;
      ZeroSum(t);
    } else {
      var s' := s[..|s| - 1];
      var e := s[|s| - 1];
      TallySum(qs, s', m);
      TallyStep(qs, s', e, m);
      assert s == s' + [e];
      SumUpdate(Tally(qs, s', m), qs[e].party, Tally(qs, s', m)[qs[e].party] + 1);
    }
  }

  lemma {:induction false} CountAbsent(qs: seq<Quotient>, s: seq<nat>, x: nat)
    requires forall k :: 0 <= k < |s| ==> s[k] < |qs| && qs[s[k]].party != x
    ensures CountOf(qs, s, x) == 0
  {
    if s != [] {
      CountAbsent(qs, s[..|s| - 1], x);
    }
  }

  lemma InRanking(votes: seq<int>, n: nat, i: nat)
    requires i < |QuotientList(votes, n)|
    ensures i in Ranking(votes, n)
  {
    var qs := QuotientList(votes, n);
    assert Range(|qs|)[i] == i;
    assert i in multiset(Range(|qs|));
  }

  /**
   * The heart of the method: after the first k entries of the ranking, the
   * quotients of each party among them are exactly its first few divisors
   * 1..c, where c is how many of them it has.
   */
  lemma {:induction false} RankPrefix(votes: seq<int>, n: nat, k: nat)
    requires k <= |Ranking(votes, n)|
    ensures forall x, d :: 0 <= x < |votes| && votes[x] > 0 && 1 <= d <= n ==>
      (Pos(votes, n, x, d) in Ranking(votes, n)[..k] <==>
       d <= CountOf(QuotientList(votes, n), Ranking(votes, n)[..k], x))
  {
    var qs := QuotientList(votes, n);
    var order := Ranking(votes, n);
    var key := Keys(qs);
    if k == 0 {
      return;
    }
    var k' := k - 1;
    RankPrefix(votes, n, k');
    var e := order[k'];
    QuotientShape(votes, n, e);
    var x0, d0 := qs[e].party, qs[e].divisor;
    var c := CountOf(qs, order[..k'], x0);
    assert order[..k][..k'] == order[..k'];
    assert order[..k] == order[..k'] + [e];
    SortedDistinct(key, order);
    assert e !in order[..k'];
    NoSkippedDivisor(votes, n, k');
    forall x, d | 0 <= x < |votes| && votes[x] > 0 && 1 <= d <= n
      ensures Pos(votes, n, x, d) in order[..k] <==> d <= CountOf(qs, order[..k], x)
    {
      QuotientAt(votes, n, x, d);
      if x != x0 || d != d0 {
        assert Pos(votes, n, x, d) != e;
      }
    }
  }

  /**
   * Given the prefix property for the first k' ranked quotients, the next one
   * ranked uses its party's next divisor: a smaller unranked divisor would
   * give a larger quotient, which the sort would have put first.
   */
  lemma NoSkippedDivisor(votes: seq<int>, n: nat, k': nat)
    requires k' < |Ranking(votes, n)|
    requires forall x, d :: 0 <= x < |votes| && votes[x] > 0 && 1 <= d <= n ==>
      (Pos(votes, n, x, d) in Ranking(votes, n)[..k'] <==>
       d <= CountOf(QuotientList(votes, n), Ranking(votes, n)[..k'], x))
    ensures var e := QuotientList(votes, n)[Ranking(votes, n)[k']];
      e.divisor <= CountOf(QuotientList(votes, n), Ranking(votes, n)[..k'], e.party) + 1
  {
    var qs := QuotientList(votes, n);
    var order := Ranking(votes, n);
    var key := Keys(qs);
    var e := order[k'];
    QuotientShape(votes, n, e);
    var x0, d0 := qs[e].party, qs[e].divisor;
    var c := CountOf(qs, order[..k'], x0);
    if d0 > c + 1 {
      var d' := c + 1;
      QuotientAt(votes, n, x0, d');
      QuotientDecreasing(votes[x0], d', d0);
      InRanking(votes, n, Pos(votes, n, x0, d'));
      BeforeComesEarlier(key, order, k', Pos(votes, n, x0, d'));
      assert false;
    }
  }

  // ---------------------------------------------------------------------------
  // Properties of the allocation

  /** Every input key is kept and the seats add up to the seat total. */
  lemma SeatsSum(votes: seq<int>, n: nat)
    requires n == 0 || HasPositive(votes)
    ensures Sum(HighestAveragesSeats(votes, n)) == n
  {
    EnoughQuotients(votes, n);
    var qs := QuotientList(votes, n);
    var top := Ranking(votes, n)[..n];
    forall k | 0 <= k < |top| ensures qs[top[k]].party < |votes| {
      QuotientShape(votes, n, top[k]);
    }
    TallySum(qs, top, |votes|);
  }

  /** A party without positive votes pushes no quotient and gets no seat. */
  lemma NonPositiveGetsNone(votes: seq<int>, n: nat, p: nat)
    requires n == 0 || HasPositive(votes)
    requires p < |votes| && votes[p] <= 0
    ensures HighestAveragesSeats(votes, n)[p] == 0
  {
    EnoughQuotients(votes, n);
    var qs := QuotientList(votes, n);
    var top := Ranking(votes, n)[..n];
    forall k | 0 <= k < |top| ensures qs[top[k]].party != p {
      QuotientShape(votes, n, top[k]);
    }
    CountAbsent(qs, top, p);
  }

  /** Strictly more votes never means fewer seats. */
  lemma MoreVotesNoFewerSeats(votes: seq<int>, n: nat, a: nat, b: nat)
    requires n == 0 || HasPositive(votes)
    requires a < |votes| && b < |votes| && votes[a] > votes[b]
    ensures HighestAveragesSeats(votes, n)[a] >= HighestAveragesSeats(votes, n)[b]
  {
    var seats := HighestAveragesSeats(votes, n);
    if votes[b] <= 0 {
      NonPositiveGetsNone(votes, n, b);
    } else if seats[a] < seats[b] {
      var d := seats[a] + 1;
      CountBound(votes, n, b);
      SeatsAtLeast(votes, n, b, d);
      QuotientAt(votes, n, a, d);
      QuotientAt(votes, n, b, d);
      QuotientIncreasing(votes[a], votes[b], d);
      TopClosed(votes, n, Pos(votes, n, b, d), Pos(votes, n, a, d));
      SeatsAtLeast(votes, n, a, d);
      assert false;
    }
  }

  /** Party x has at least d seats exactly when its quotient votes[x]/d is among the first n ranked. */
  lemma SeatsAtLeast(votes: seq<int>, n: nat, x: nat, d: nat)
    requires n == 0 || HasPositive(votes)
    requires x < |votes| && votes[x] > 0 && 1 <= d <= n
    ensures n <= |Ranking(votes, n)|
    ensures Pos(votes, n, x, d) in Ranking(votes, n)[..n] <==> d <= HighestAveragesSeats(votes, n)[x]
  {
    EnoughQuotients(votes, n);
    RankPrefix(votes, n, n);
  }

  /** A quotient that goes before one among the first n ranked is itself among them. */
  lemma TopClosed(votes: seq<int>, n: nat, i: nat, j: nat)
    requires n <= |Ranking(votes, n)|
    requires i < |QuotientList(votes, n)| && j < |QuotientList(votes, n)|
    requires i in Ranking(votes, n)[..n]
    requires Before(Keys(QuotientList(votes, n)), j, i)
    ensures j in Ranking(votes, n)[..n]
  {
    InRanking(votes, n, j);
    PrefixClosed(Keys(QuotientList(votes, n)), Ranking(votes, n), n, i, j);
  }

  lemma CountBound(votes: seq<int>, n: nat, x: nat)
    requires n == 0 || HasPositive(votes)
    requires x < |votes|
    ensures HighestAveragesSeats(votes, n)[x] <= n
  {
    EnoughQuotients(votes, n);
    TallyAtMost(QuotientList(votes, n), Ranking(votes, n)[..n], |votes|, x);
  }

  lemma TallyAtMost(qs: seq<Quotient>, s: seq<nat>, m: nat, x: nat)
    requires forall k :: 0 <= k < |s| ==> s[k] < |qs|
    requires x < m
    ensures Tally(qs, s, m)[x] <= |s|
  {
    CountAtMost(qs, s, x);
  }

  lemma {:induction false} CountAtMost(qs: seq<Quotient>, s: seq<nat>, x: nat)
    requires forall k :: 0 <= k < |s| ==> s[k] < |qs|
    ensures CountOf(qs, s, x) <= |s|
  {
    if s != [] {
      CountAtMost(qs, s[..|s| - 1], x);
    }
  }

  /**
   * Votes {A: 100, B: 50} and three seats give A two seats and B one: the tie
   * between A's second quotient and B's first (both 50) goes to A, which was
   * pushed first.
   */
  lemma ExampleHundredFifty()
    ensures HasPositive([100, 50]) && HighestAveragesSeats([100, 50], 3) == [2, 1]
  {
    var votes := [100, 50];
    assert HasPositive(votes) by { assert votes[0] > 0; }
    SeatsSum(votes, 3);
    SumTwo(HighestAveragesSeats(votes, 3));
    MoreVotesNoFewerSeats(votes, 3, 0, 1);
    SecondPartyWins(votes);
    TwoOne(HighestAveragesSeats(votes, 3));
  }

  lemma TwoOne(s: seq<int>)
    requires |s| == 2 && s[0] + s[1] == 3 && s[0] >= s[1] >= 1
    ensures s == [2, 1]
  {
  }

  /** The step of the example above that needs the ranking: 50/1 outranks 100/3. */
  lemma SecondPartyWins(votes: seq<int>)
    requires votes == [100, 50] && HasPositive(votes)
    ensures HighestAveragesSeats(votes, 3)[1] >= 1
  {
    var qs := QuotientList(votes, 3);
    var seats := HighestAveragesSeats(votes, 3);
    SeatsSum(votes, 3);
    SumTwo(seats);
    CountNonNegative(votes, 3, 0);
    assert votes[..0] == [] && votes[..1] == [100];
    assert Pos(votes, 3, 0, 3) == 2 && Pos(votes, 3, 1, 1) == 3;
    QuotientAt(votes, 3, 0, 3);
    QuotientAt(votes, 3, 1, 1);
    assert Keys(qs)[3] > Keys(qs)[2];
    SeatsAtLeast(votes, 3, 1, 1);
    if seats[1] < 1 {
      SeatsAtLeast(votes, 3, 0, 3);
      TopClosed(votes, 3, 2, 3);
    }
  }

  lemma CountNonNegative(votes: seq<int>, n: nat, x: nat)
    requires n == 0 || HasPositive(votes)
    requires x < |votes|
    ensures HighestAveragesSeats(votes, n)[x] >= 0
  {
  }

  lemma SumTwo(s: seq<int>)
    requires |s| == 2
    ensures Sum(s) == s[0] + s[1]
  {
    var h := s[..1];
    assert h[..0] == [] && h[0] == s[0];
    assert Sum(h) == s[0];
    assert s[..|s| - 1] == h;
  }
}
