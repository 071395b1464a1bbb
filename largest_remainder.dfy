/**
 * The two largest-remainder helpers of js/utils.js, `sampleVotesFromShares`
 * and `scaleSeatsTo650`. Both round a list of exact real quotas down, then
 * hand out the shortfall one unit at a time, cycling through the entries in
 * descending order of their fractional parts (a stable sort: equal fractions
 * keep key order).
 */
module LargestRemainder {
  import opened Base
  import opened StableSort

  // ---------------------------------------------------------------------------
  // The shared scheme, as specification functions

  function Floors(exact: seq<real>): (r: seq<int>)
    ensures |r| == |exact| && forall i :: 0 <= i < |exact| ==> r[i] == exact[i].Floor
  {
    if exact == [] then [] else Floors(exact[..|exact| - 1]) + [exact[|exact| - 1].Floor]
  }

  /** The fractional parts `x - Math.floor(x)`, each in [0, 1). */
  function Fracs(exact: seq<real>): (r: seq<real>)
    ensures |r| == |exact|
  {
    seq(|exact|, i requires 0 <= i < |exact| => exact[i] - exact[i].Floor as real)
  }

  lemma FracAt(exact: seq<real>, i: nat)
    requires i < |exact|
    ensures Fracs(exact)[i] == exact[i] - exact[i].Floor as real
    ensures 0.0 <= Fracs(exact)[i] < 1.0
  {
  }

  /** The entries by descending fractional part, ties in key order. */
  function RemainderOrder(exact: seq<real>): (r: seq<nat>)
    ensures |r| == |exact| && forall i :: 0 <= i < |r| ==> r[i] < |exact|
  {
    var r := SortDesc(Fracs(exact), Range(|exact|));
    assert InBounds(Fracs(exact), r);
    r
  }

  /** The remainder order lists every entry once, by descending fractional part. */
  lemma RemainderOrderSorted(exact: seq<real>)
    ensures multiset(RemainderOrder(exact)) == multiset(Range(|exact|))
    ensures InBounds(Fracs(exact), RemainderOrder(exact)) && Sorted(Fracs(exact), RemainderOrder(exact))
    ensures Distinct(RemainderOrder(exact))
  {
    SortedDistinct(Fracs(exact), RemainderOrder(exact));
  }

  lemma RemainderOrderHas(exact: seq<real>, j: nat)
    requires j < |exact|
    ensures j in RemainderOrder(exact)
  {
    assert Range(|exact|)[j] == j;
    assert j in multiset(Range(|exact|));
    RemainderOrderSorted(exact);
    assert j in multiset(RemainderOrder(exact));
  }

  function Zeros(m: nat): (r: seq<int>)
    ensures |r| == m && forall j :: 0 <= j < m ==> r[j] == 0
  {
    seq(m, _ => 0)
  }

  /**
   * The extra units after k passes of `counts[order[i % order.length]]++`
   * for i = 0 .. k-1; no pass when k <= 0.
   */
  function RoundRobin(order: seq<nat>, m: nat, k: int): (r: seq<int>)
    requires forall i :: 0 <= i < |order| ==> order[i] < m
    requires k > 0 ==> |order| > 0
    ensures |r| == m
    decreases if k > 0 then k else 0
  {
    if k <= 0 then Zeros(m)
    else
      var prev := RoundRobin(order, m, k - 1);
      var j := order[(k - 1) % |order|];
      prev[j := prev[j] + 1]
  }

  function AddSeq(a: seq<int>, b: seq<int>): (r: seq<int>)
    requires |a| == |b|
    ensures |r| == |a| && forall i :: 0 <= i < |a| ==> r[i] == a[i] + b[i]
  {
    seq(|a|, i requires 0 <= i < |a| => a[i] + b[i])
  }

  /** The base counts plus the round-robin extras over order that bring the total up to target. */
  function Distribute(base: seq<int>, order: seq<nat>, target: int): (r: seq<int>)
    requires |base| > 0 && |order| == |base| && forall i :: 0 <= i < |order| ==> order[i] < |base|
    ensures |r| == |base|
  {
    AddSeq(base, RoundRobin(order, |base|, target - Sum(base)))
  }

  /** The floors of the quotas plus one unit at a time by descending fractional part, up to target. */
  function Apportion(exact: seq<real>, target: int): (r: seq<int>)
    requires |exact| > 0
    ensures |r| == |exact|
  {
    Distribute(Floors(exact), RemainderOrder(exact), target)
  }

  // ---------------------------------------------------------------------------
  // Properties of the scheme

  /** The round robin hands out exactly k units (none when k <= 0). */
  lemma {:induction false} RoundRobinSum(order: seq<nat>, m: nat, k: int)
    requires forall i :: 0 <= i < |order| ==> order[i] < m
    requires k > 0 ==> |order| > 0
    ensures Sum(RoundRobin(order, m, k)) == Max(k, 0)
    ensures forall j :: 0 <= j < m ==> RoundRobin(order, m, k)[j] >= 0
    decreases if k > 0 then k else 0
  {
    if k <= 0 {
      ZeroSum(Zeros(m));
    } else {
      RoundRobinSum(order, m, k - 1);
      var prev := RoundRobin(order, m, k - 1);
      var j := order[(k - 1) % |order|];
      SumUpdate(prev, j, prev[j] + 1);
    }
  }

  /**
   * With no more passes than entries, each entry among the first k of the
   * order gets one extra unit and every other entry none.
   */
  lemma {:induction false} RoundRobinOnce(order: seq<nat>, m: nat, k: int, j: nat)
    requires forall i :: 0 <= i < |order| ==> order[i] < m
    requires Distinct(order) && 0 <= k <= |order| && j < m
    ensures RoundRobin(order, m, k)[j] == if j in order[..k] then 1 else 0
  {
    if k > 0 {
      RoundRobinOnce(order, m, k - 1, j);
      assert (k - 1) % |order| == k - 1;
      assert order[..k] == order[..k - 1] + [order[k - 1]];
      if order[k - 1] == j {
        assert j !in order[..k - 1];
      }
    }
  }

  lemma {:induction false} SumAdd(a: seq<int>, b: seq<int>)
    requires |a| == |b|
    ensures Sum(AddSeq(a, b)) == Sum(a) + Sum(b)
  {
    if a != [] {
      var n := |a| - 1;
      SumAdd(a[..n], b[..n]);
      assert AddSeq(a, b)[..n] == AddSeq(a[..n], b[..n]);
    }
  }

  /** Distributing never takes anything away, and the total is target unless the base already exceeds it. */
  lemma DistributeSum(base: seq<int>, order: seq<nat>, target: int)
    requires |base| > 0 && |order| == |base| && forall i :: 0 <= i < |order| ==> order[i] < |base|
    requires target > Sum(base) ==> |order| > 0
    ensures Sum(Distribute(base, order, target)) == Max(target, Sum(base))
    ensures forall i :: 0 <= i < |base| ==> Distribute(base, order, target)[i] >= base[i]
  {
    var rr := RoundRobin(order, |base|, target - Sum(base));
    RoundRobinSum(order, |base|, target - Sum(base));
    SumAdd(base, rr);
  }

  /** With a shortfall of at most one unit per entry, exactly the first `shortfall` entries of the order get one. */
  lemma DistributeOnce(base: seq<int>, order: seq<nat>, target: int, i: nat)
    requires |base| > 0 && |order| == |base| && forall i :: 0 <= i < |order| ==> order[i] < |base|
    requires Distinct(order) && 0 <= target - Sum(base) <= |order| && i < |base|
    ensures Distribute(base, order, target)[i] == base[i] + if i in order[..target - Sum(base)] then 1 else 0
  {
    RoundRobinOnce(order, |base|, target - Sum(base), i);
  }

  /** Every entry gets at least the floor of its quota. */
  lemma ApportionAtLeastFloor(exact: seq<real>, target: int, i: nat)
    requires |exact| > 0 && i < |exact|
    ensures Apportion(exact, target)[i] >= exact[i].Floor
  {
    DistributeSum(Floors(exact), RemainderOrder(exact), target);
  }

  /** The result adds up to target whenever the floors do not already exceed it, and to the floors otherwise. */
  lemma ApportionSum(exact: seq<real>, target: int)
    requires |exact| > 0
    ensures Sum(Apportion(exact, target)) == Max(target, Sum(Floors(exact)))
  {
    DistributeSum(Floors(exact), RemainderOrder(exact), target);
  }

  /**
   * When the quotas add up exactly to target, the floors fall short by fewer
   * units than there are entries: the result adds up to target, each entry
   * gets its floor or one more, and the entries that get one more are the
   * first ones by descending fractional part.
   */
  lemma ApportionExact(exact: seq<real>, target: int, i: nat)
    requires |exact| > 0 && i < |exact|
    requires SumReal(exact) == target as real
    ensures 0 <= target - Sum(Floors(exact)) < |exact|
    ensures Sum(Apportion(exact, target)) == target
    ensures Apportion(exact, target)[i] ==
      exact[i].Floor + if i in RemainderOrder(exact)[..target - Sum(Floors(exact))] then 1 else 0
  {
    FloorsBound(exact);
    DistributeSum(Floors(exact), RemainderOrder(exact), target);
    RemainderOrderSorted(exact);
    DistributeOnce(Floors(exact), RemainderOrder(exact), target, i);
  }

  /** When the quotas add up exactly to target, the result does too, and each entry gets its floor or one more. */
  lemma ApportionNear(exact: seq<real>, target: int, i: nat)
    requires |exact| > 0 && i < |exact|
    requires SumReal(exact) == target as real
    ensures Sum(Apportion(exact, target)) == target
    ensures exact[i].Floor <= Apportion(exact, target)[i] <= exact[i].Floor + 1
  {
    ApportionExact(exact, target, i);
  }

  /** The floors add up to at most the quotas and to more than the quotas less one per entry. */
  lemma {:induction false} FloorsBound(exact: seq<real>)
    ensures Sum(Floors(exact)) as real <= SumReal(exact)
    ensures SumReal(exact) - |exact| as real < Sum(Floors(exact)) as real || exact == []
  {
    if exact != [] {
      var n := |exact| - 1;
      FloorsBound(exact[..n]);
      assert Floors(exact)[..n] == Floors(exact[..n]);
    }
  }

  /**
   * An entry with a strictly larger fractional part than one that gets an
   * extra unit gets one too (and so does an entry with an equal fractional
   * part earlier in key order).
   */
  lemma ExtrasByFraction(exact: seq<real>, target: int, i: nat, j: nat)
    requires |exact| > 0 && i < |exact| && j < |exact|
    requires 0 <= target - Sum(Floors(exact)) <= |exact|
    requires i in RemainderOrder(exact)[..target - Sum(Floors(exact))]
    requires Before(Fracs(exact), j, i)
    ensures j in RemainderOrder(exact)[..target - Sum(Floors(exact))]
  {
    var order := RemainderOrder(exact);
    var k := target - Sum(Floors(exact));
    RemainderOrderSorted(exact);
    RemainderOrderHas(exact, j);
    PrefixClosed(Fracs(exact), order, k, i, j);
  }

  /** Sum of a sequence scaled by a constant. */
  lemma {:induction false} SumRealScale(a: seq<real>, c: real, b: seq<real>)
    requires |b| == |a| && forall i :: 0 <= i < |a| ==> b[i] == a[i] * c
    ensures SumReal(b) == SumReal(a) * c
  {
    if a != [] {
      var n := |a| - 1;
      SumRealScale(a[..n], c, b[..n]);
    }
  }

  // ---------------------------------------------------------------------------
  // sampleVotesFromShares

  /** The fixed candidate list of `sampleVotesFromShares`, in its order. */
  const Candidates: seq<string> := ["reform-uk", "conservative", "liberal-democrats", "labour", "green"]

  /** The exact quotas `shares[c] * voters`. */
  function VoteQuotas(shares: seq<real>, voters: int): (r: seq<real>)
    ensures |r| == |shares| && forall c :: 0 <= c < |shares| ==> r[c] == shares[c] * voters as real
  {
    seq(|shares|, c requires 0 <= c < |shares| => shares[c] * voters as real)
  }

  /** The votes `sampleVotesFromShares` gives each of the five candidates. */
  function SampledVotes(shares: seq<real>, voters: int): (r: seq<int>)
    requires |shares| == |Candidates|
    ensures |r| == |Candidates|
  {
    Apportion(VoteQuotas(shares, voters), voters)
  }

  /**
   * `sampleVotesFromShares(shares, voters)`, with `shares` given per
   * candidate in the order of Candidates: floor of each share of the voters,
   * then one more vote at a time by descending fractional part until `voters`
   * is reached.
   */
  method SampleVotesFromShares(shares: seq<real>, voters: int) returns (votes: seq<int>)
    requires |shares| == |Candidates|
    ensures votes == SampledVotes(shares, voters)
    ensures forall c :: 0 <= c < |Candidates| ==> votes[c] >= (shares[c] * voters as real).Floor
    ensures Sum(votes) == Max(voters, Sum(Floors(VoteQuotas(shares, voters))))
  {
    var exact := VoteQuotas(shares, voters);
    votes := Fill(exact, voters);
    forall c | 0 <= c < |Candidates| ensures votes[c] >= (shares[c] * voters as real).Floor {
      ApportionAtLeastFloor(exact, voters, c);
    }
    ApportionSum(exact, voters);
  }

  /**
   * When the shares add up to 1, the votes add up to exactly `voters` and
   * each candidate gets the floor of its share of the voters or one more.
   */
  lemma SampleVotesExact(shares: seq<real>, voters: int, c: nat)
    requires |shares| == |Candidates| && SumReal(shares) == 1.0 && c < |Candidates|
    ensures Sum(SampledVotes(shares, voters)) == voters
    ensures (shares[c] * voters as real).Floor <= SampledVotes(shares, voters)[c] <= (shares[c] * voters as real).Floor + 1
  {
    QuotasAddUp(shares, voters);
    ApportionNear(VoteQuotas(shares, voters), voters, c);
  }

  lemma QuotasAddUp(shares: seq<real>, voters: int)
    requires SumReal(shares) == 1.0
    ensures SumReal(VoteQuotas(shares, voters)) == voters as real
  {
    SumRealScale(shares, voters as real, VoteQuotas(shares, voters));
  }

  /**
   * The two loops shared by both helpers: add each floor to a zero count
   * keeping the running total, then add one unit at a time round-robin over
   * the remainder order while the total is short of target.
   */
  method Fill(exact: seq<real>, target: int) returns (counts: seq<int>)
    requires |exact| > 0
    ensures counts == Apportion(exact, target)
  {
    var given;
    counts, given := AddFloors(exact);
    var order := RemainderOrder(exact);
    counts := AddRoundRobin(counts, given, order, target);
  }

  /** The first loop: every count starts at zero and receives its floor; `given` is their total. */
  method AddFloors(exact: seq<real>) returns (counts: seq<int>, given: int)
    ensures counts == Floors(exact) && given == Sum(Floors(exact))
  {
    var n := |exact|;
    counts := Zeros(n);
    given := 0;
    for c := 0 to n
      invariant |counts| == n
      invariant forall j :: 0 <= j < c ==> counts[j] == exact[j].Floor
      invariant forall j :: c <= j < n ==> counts[j] == 0
      invariant given == Sum(counts[..c])
    {
      var count := exact[c].Floor;
      counts := counts[c := counts[c] + count];
      given := given + count;
      assert counts[..c + 1][..c] == counts[..c];
    }
    assert counts[..n] == counts;
  }

  /**
   * The second loop: `target - given` passes of one unit to `order[i % |order|]`,
   * none when the base total `given` already reaches target.
   */
  method AddRoundRobin(base: seq<int>, given: int, order: seq<nat>, target: int) returns (counts: seq<int>)
    requires |base| > 0 && |order| == |base| && forall i :: 0 <= i < |order| ==> order[i] < |base|
    requires given == Sum(base)
    ensures counts == Distribute(base, order, target)
  {
    var k := target - given;
    counts := base;
    var n := |base|;
    var i := 0;
    while i < k
      invariant 0 <= i && (i <= k || i == 0)
      invariant counts == AddSeq(base, RoundRobin(order, n, i))
    {
      var j := order[i % n];
      counts := counts[j := counts[j] + 1];
      i := i + 1;
    }
  }

  // ---------------------------------------------------------------------------
  // scaleSeatsTo650

  /** The exact quotas `seats[k] * 650 / totalSeats`. */
  function SeatQuotas(seats: seq<int>, totalSeats: int): (r: seq<real>)
    requires totalSeats != 0
    ensures |r| == |seats| && forall k :: 0 <= k < |seats| ==> r[k] == (seats[k] * 650) as real / totalSeats as real
  {
    seq(|seats|, k requires 0 <= k < |seats| => (seats[k] * 650) as real / totalSeats as real)
  }

  /** What `scaleSeatsTo650` returns. */
  function ScaledSeats(seats: seq<int>, totalSeats: int): (r: seq<int>)
    requires totalSeats != 0 || Sum(seats) == 0
    ensures |r| == |seats|
  {
    if totalSeats == 650 || Sum(seats) == 0 then seats
    else
      assert |seats| > 0;
      Apportion(SeatQuotas(seats, totalSeats), 650)
  }

  /**
   * `scaleSeatsTo650(seatsByParty, totalSeats)`: unchanged when the total is
   * already 650 or no party has seats; otherwise every party keeps its key
   * and gets at least the floor of its scaled share of 650, and the result
   * adds up to 650 unless the floors alone exceed it.
   */
  method ScaleSeatsTo650(seats: seq<int>, totalSeats: int) returns (scaled: seq<int>)
    requires totalSeats != 0 || Sum(seats) == 0
    ensures scaled == ScaledSeats(seats, totalSeats)
    ensures totalSeats == 650 || Sum(seats) == 0 ==> scaled == seats
    ensures totalSeats != 650 && Sum(seats) != 0 ==>
      && (forall k :: 0 <= k < |seats| ==> scaled[k] >= ((seats[k] * 650) as real / totalSeats as real).Floor)
      && Sum(scaled) == Max(650, Sum(Floors(SeatQuotas(seats, totalSeats))))
  {
    if totalSeats == 650 {
      return seats;
    }
    var sum := 0;
    for k := 0 to |seats|
      invariant sum == Sum(seats[..k])
    {
      sum := sum + seats[k];
      assert seats[..k + 1][..k] == seats[..k];
    }
    assert seats[..|seats|] == seats;
    if sum == 0 {
      return seats;
    }
    var exact := SeatQuotas(seats, totalSeats);
    scaled := Fill(exact, 650);
    forall k | 0 <= k < |seats| ensures scaled[k] >= exact[k].Floor {
      ApportionAtLeastFloor(exact, 650, k);
    }
    ApportionSum(exact, 650);
  }

  /**
   * When totalSeats is the actual seat total, the scaled quotas add up to
   * exactly 650, so the result adds up to 650 and each party gets the floor
   * of its quota or one more.
   */
  lemma ScaleToActualTotal(seats: seq<int>, k: nat)
    requires Sum(seats) != 0 && Sum(seats) != 650 && k < |seats|
    ensures Sum(ScaledSeats(seats, Sum(seats))) == 650
    ensures var q := ((seats[k] * 650) as real / Sum(seats) as real).Floor;
      q <= ScaledSeats(seats, Sum(seats))[k] <= q + 1
  {
    SeatQuotasAddUp(seats);
    ApportionNear(SeatQuotas(seats, Sum(seats)), 650, k);
  }

  /** Scaled by 650 over their own total, the seat counts add up to exactly 650. */
  lemma SeatQuotasAddUp(seats: seq<int>)
    requires Sum(seats) != 0
    ensures SumReal(SeatQuotas(seats, Sum(seats))) == 650.0
  {
    var t := Sum(seats);
    var c := 650.0 / t as real;
    var exact := SeatQuotas(seats, t);
    var reals := seq(|seats|, i requires 0 <= i < |seats| => seats[i] as real);
    forall i | 0 <= i < |seats| ensures exact[i] == reals[i] * c {
      ScaleOne(seats[i], t);
    }
    SumRealScale(reals, c, exact);
    SumAsReal(seats, reals);
    calc {
      SumReal(exact);
    ==
      SumReal(reals) * c;
    ==
      t as real * c;
    ==
      { assert t as real * (650.0 / t as real) == 650.0; }
      650.0;
    }
  }

  /** One count scaled by 650 over the total is the count times the common factor. */
  lemma ScaleOne(seats: int, total: int)
    requires total != 0
    ensures (seats * 650) as real / total as real == seats as real * (650.0 / total as real)
  {
    assert (seats * 650) as real == seats as real * 650.0;
  }

  lemma {:induction false} SumAsReal(s: seq<int>, r: seq<real>)
    requires |r| == |s| && forall i :: 0 <= i < |s| ==> r[i] == s[i] as real
    ensures SumReal(r) == Sum(s) as real
  {
    if s != [] {
      var n := |s| - 1;
      SumAsReal(s[..n], r[..n]);
    }
  }
}
