/**
 * `allocateSeatsFairShareTransfersWithSteps` of js/seat-allocation.js: the
 * older fair-share transfer allocator, which returns only the seats.
 *
 * It differs from the TypeScript allocator in four ways: costs are not
 * rounded, so unspent votes are fractional (modelled as exact reals); the
 * threshold step and the finalizations record no transfers; a party is
 * finalized only in a round that awards no seat; and the loop runs at most
 * 5000 times.
 */
module FairShareLegacy {
  import opened Base
  import opened Parties

  type LegacyParty = PartyState<real>

  /** The initial cost `grandTotal / totalSeats`, unrounded. */
  function InitialCost(votes: seq<int>, totalSeats: int): (r: real)
    requires totalSeats > 0 && Sum(ClampVotes(votes)) > 0
    ensures r > 0.0
  {
    Sum(ClampVotes(votes)) as real / totalSeats as real
  }

  /** `p.seats = Math.floor(p.votes / initialCost); p.unspent = p.votes - p.seats * initialCost`. */
  function InitialParty(votes: int, cost: real): LegacyParty
    requires cost > 0.0
  {
    var seats := (votes as real / cost).Floor;
    PartyState(votes, seats, votes as real - Price(seats, cost), false)
  }

  /** `seats * cost`: the votes that `seats` seats take at the given cost. */
  function Price(seats: int, cost: real): real
  {
    seats as real * cost
  }

  function InitialParties(votes: seq<int>, cost: real): (r: seq<LegacyParty>)
    requires cost > 0.0
    ensures |r| == |votes|
  {
    seq(|votes|, i requires 0 <= i < |votes| => InitialParty(Max(0, votes[i]), cost))
  }

  /** A party's initial seats cost at most its votes, and what is left is less than one seat. */
  lemma InitialSplit(votes: int, cost: real)
    requires cost > 0.0 && votes >= 0
    ensures var p := InitialParty(votes, cost);
      && p.seats >= 0
      && p.seats as real * cost <= votes as real
      && 0.0 <= p.unspent < cost
  {
    var q := votes as real / cost;
    var s := q.Floor;
    QuotaTimesCost(votes, cost);
    FloorSplit(votes as real, cost, s as real, q);
  }

  /** `votes / cost` times `cost` is `votes` again. */
  lemma QuotaTimesCost(votes: int, cost: real)
    requires cost > 0.0
    ensures (votes as real / cost) * cost == votes as real
  {
  }

  /** If `x <= q < x + 1` and `q * c == v`, then `x * c` is at most `v` and less than one `c` short of it. */
  lemma FloorSplit(v: real, c: real, x: real, q: real)
    requires c > 0.0 && q * c == v && x <= q < x + 1.0
    ensures x * c <= v && v - x * c < c
  {
    calc {
      v;
    ==
      q * c;
    <
      { assert q * c - (x + 1.0) * c == (q - (x + 1.0)) * c; }
      (x + 1.0) * c;
    ==
      x * c + c;
    }
    calc {
      x * c;
    <=
      { assert q * c - x * c == (q - x) * c; }
      q * c;
    ==
      v;
    }
  }

  /** Round 1 never overfills: the floors of votes over the exact quota add up to at most the seats. */
  lemma InitialNoOverfill(votes: seq<int>, totalSeats: int)
    requires totalSeats > 0 && Sum(ClampVotes(votes)) > 0
    ensures SeatsFilled(InitialParties(votes, InitialCost(votes, totalSeats))) <= totalSeats
  {
    var cost := InitialCost(votes, totalSeats);
    var ps := InitialParties(votes, cost);
    InitialSeatsCost(ClampVotes(votes), ps, cost);
    QuotaTimesSeats(Sum(ClampVotes(votes)), totalSeats);
    ScaleBack(SeatsFilled(ps) as real, totalSeats as real, cost);
  }

  lemma QuotaTimesSeats(grandTotal: int, totalSeats: int)
    requires totalSeats > 0
    ensures totalSeats as real * (grandTotal as real / totalSeats as real) == grandTotal as real
  {
  }

  lemma ScaleBack(f: real, n: real, c: real)
    requires c > 0.0 && f * c <= n * c
    ensures f <= n
  {
    assert f * c - n * c == (f - n) * c;
  }

  /** The seats of round 1, priced at the cost, take at most the votes. */
  lemma {:induction false} InitialSeatsCost(votes: seq<int>, ps: seq<LegacyParty>, cost: real)
    requires cost > 0.0 && |ps| == |votes|
    requires forall i :: 0 <= i < |votes| ==> votes[i] >= 0 && ps[i] == InitialParty(votes[i], cost)
    ensures SeatsFilled(ps) as real * cost <= Sum(votes) as real
  {
    if ps != [] {
      var n := |ps| - 1;
      InitialSeatsCost(votes[..n], ps[..n], cost);
      InitialSplit(votes[n], cost);
      assert SeatsFilled(ps) as real * cost == SeatsFilled(ps[..n]) as real * cost + ps[n].seats as real * cost;
    }
  }

  // ---------------------------------------------------------------------------
  // The threshold step

  /**
   * One below-threshold party k: its round-1 seats go back to its unspent
   * pool, its full votes go to its first live preference, and it is
   * finalized with nothing unspent. No transfer is recorded.
   */
  function ThresholdOne(keys: seq<string>, ps: seq<LegacyParty>, prefs: map<string, seq<string>>, cost: real, k: nat): (r: seq<LegacyParty>)
    requires |keys| == |ps| && k < |ps|
    ensures |r| == |ps|
  {
    var p := ps[k];
    var stripped := if p.seats > 0 then ps[k := p.(unspent := p.unspent + Price(p.seats, cost), seats := 0)] else ps;
    var target := TransferTarget(keys, stripped, prefs, k);
    var moved := if target.Some? then
        stripped[target.value := Credit(stripped[target.value], p.votes as real)]
      else stripped;
    moved[k := moved[k].(unspent := 0.0, finalized := true)]
  }

  /** `parties[target].unspent += votes`. */
  function Credit(p: LegacyParty, votes: real): LegacyParty
  {
    p.(unspent := p.unspent + votes)
  }

  /** The threshold step over the first k parties, each processed only if its votes were below the threshold. */
  function ThresholdFrom(keys: seq<string>, ps: seq<LegacyParty>, prefs: map<string, seq<string>>, thresholdVotes: real, cost: real, k: nat): (r: seq<LegacyParty>)
    requires |keys| == |ps| && k <= |ps|
    ensures |r| == |ps|
  {
    if k == 0 then ps
    else
      var prev := ThresholdFrom(keys, ps, prefs, thresholdVotes, cost, k - 1);
      if (ps[k - 1].votes as real) < thresholdVotes then ThresholdOne(keys, prev, prefs, cost, k - 1) else prev
  }

  predicate NonNegativeUnspent(ps: seq<LegacyParty>)
  {
    forall i :: 0 <= i < |ps| ==> ps[i].unspent >= 0.0
  }

  /** What the threshold step keeps after k parties, from round-1 records ps0. */
  predicate ThresholdDone(ps0: seq<LegacyParty>, ps: seq<LegacyParty>, thresholdVotes: real, k: nat)
    requires |ps| == |ps0|
  {
    && NonNegativeUnspent(ps)
    && (forall i :: 0 <= i < |ps| ==> ps[i].votes == ps0[i].votes)
    && (forall i :: 0 <= i < |ps| && i < k && (ps0[i].votes as real) < thresholdVotes ==>
          ps[i] == PartyState(ps0[i].votes, 0, 0.0, true))
    && (forall i :: 0 <= i < |ps| && !(i < k && (ps0[i].votes as real) < thresholdVotes) ==>
          ps[i].seats == ps0[i].seats && !ps[i].finalized)
  }

  /**
   * The finalized flags when the threshold step reaches party j: exactly the
   * below-threshold parties before j are finalized.
   */
  function FlagsAt(ps0: seq<LegacyParty>, thresholdVotes: real, j: nat): (r: seq<LegacyParty>)
    ensures |r| == |ps0|
  {
    seq(|ps0|, i requires 0 <= i < |ps0| => ps0[i].(finalized := i < j && (ps0[i].votes as real) < thresholdVotes))
  }

  /**
   * The votes party i receives from the first k parties of the threshold
   * step: the full votes of each below-threshold party j whose first live
   * preference, when its turn comes, is i.
   */
  function Received(keys: seq<string>, ps0: seq<LegacyParty>, prefs: map<string, seq<string>>, thresholdVotes: real, i: nat, k: nat): real
    requires |keys| == |ps0| && k <= |ps0|
  {
    if k == 0 then 0.0
    else
      var j := k - 1;
      Received(keys, ps0, prefs, thresholdVotes, i, j)
        + (if (ps0[j].votes as real) < thresholdVotes && TransferTarget(keys, FlagsAt(ps0, thresholdVotes, j), prefs, j) == Some(i)
           then ps0[j].votes as real else 0.0)
  }

  /** A party the step has not finalized holds its round-1 unspent votes plus every transfer it received. */
  predicate ThresholdCredited(keys: seq<string>, ps0: seq<LegacyParty>, ps: seq<LegacyParty>, prefs: map<string, seq<string>>,
                              thresholdVotes: real, k: nat)
    requires |keys| == |ps0| == |ps| && k <= |ps0|
  {
    forall i :: 0 <= i < |ps| && !(i < k && (ps0[i].votes as real) < thresholdVotes) ==>
      ps[i].unspent == ps0[i].unspent + Received(keys, ps0, prefs, thresholdVotes, i, k)
  }

  /**
   * After the threshold step every below-threshold party holds no seats,
   * nothing unspent and is finalized; every other party keeps its seats,
   * stays active, and holds its round-1 unspent votes plus the full votes of
   * every below-threshold party that had it as first live preference.
   */
  lemma {:induction false} ThresholdResult(keys: seq<string>, ps: seq<LegacyParty>, prefs: map<string, seq<string>>,
                                           thresholdVotes: real, cost: real, k: nat)
    requires |keys| == |ps| && k <= |ps| && cost > 0.0
    requires forall i :: 0 <= i < |ps| ==> ps[i].seats >= 0 && ps[i].unspent >= 0.0 && ps[i].votes >= 0 && !ps[i].finalized
    ensures ThresholdDone(ps, ThresholdFrom(keys, ps, prefs, thresholdVotes, cost, k), thresholdVotes, k)
    ensures ThresholdCredited(keys, ps, ThresholdFrom(keys, ps, prefs, thresholdVotes, cost, k), prefs, thresholdVotes, k)
  {
    if k > 0 {
      ThresholdResult(keys, ps, prefs, thresholdVotes, cost, k - 1);
      if (ps[k - 1].votes as real) < thresholdVotes {
        ThresholdStep(keys, ps, ThresholdFrom(keys, ps, prefs, thresholdVotes, cost, k - 1), prefs, thresholdVotes, cost, k - 1);
      }
    }
  }

  lemma ThresholdStep(keys: seq<string>, ps0: seq<LegacyParty>, ps: seq<LegacyParty>, prefs: map<string, seq<string>>,
                      thresholdVotes: real, cost: real, k: nat)
    requires |keys| == |ps0| == |ps| && k < |ps| && cost > 0.0
    requires forall i :: 0 <= i < |ps0| ==> ps0[i].seats >= 0 && ps0[i].votes >= 0
    requires ThresholdDone(ps0, ps, thresholdVotes, k) && (ps0[k].votes as real) < thresholdVotes
    requires ThresholdCredited(keys, ps0, ps, prefs, thresholdVotes, k)
    ensures ThresholdDone(ps0, ThresholdOne(keys, ps, prefs, cost, k), thresholdVotes, k + 1)
    ensures ThresholdCredited(keys, ps0, ThresholdOne(keys, ps, prefs, cost, k), prefs, thresholdVotes, k + 1)
  {
    var p := ps[k];
    var r := ThresholdOne(keys, ps, prefs, cost, k);
    var t := TransferTarget(keys, ps, prefs, k);
    ThresholdOneEffect(keys, ps, prefs, cost, k);
    TransferTargetFinalizedOnly(keys, ps, FlagsAt(ps0, thresholdVotes, k), prefs, k);
    forall i | 0 <= i < |ps|
      ensures r[i].votes == ps0[i].votes && r[i].unspent >= 0.0
      ensures i < k + 1 && (ps0[i].votes as real) < thresholdVotes ==> r[i] == PartyState(ps0[i].votes, 0, 0.0, true)
      ensures !(i < k + 1 && (ps0[i].votes as real) < thresholdVotes) ==>
        && r[i].seats == ps0[i].seats && !r[i].finalized
        && r[i].unspent == ps0[i].unspent + Received(keys, ps0, prefs, thresholdVotes, i, k + 1)
    {
      if i != k && t.Some? && i == t.value {
        assert r[i] == Credit(ps[i], p.votes as real);
      } else if i != k {
        assert r[i] == ps[i];
      }
    }
  }

  /**
   * The effect of one threshold step: k ends finalized with no seats kept
   * and nothing unspent; its first live preference t, if any, gains k's full
   * votes; every other party is unchanged.
   */
  lemma ThresholdOneEffect(keys: seq<string>, ps: seq<LegacyParty>, prefs: map<string, seq<string>>, cost: real, k: nat)
    requires |keys| == |ps| && k < |ps|
    ensures var r := ThresholdOne(keys, ps, prefs, cost, k);
      var t := TransferTarget(keys, ps, prefs, k);
      && r[k] == PartyState(ps[k].votes, if ps[k].seats > 0 then 0 else ps[k].seats, 0.0, true)
      && (t.None? ==> forall j :: 0 <= j < |ps| && j != k ==> r[j] == ps[j])
      && (t.Some? ==>
           && (t.value != k ==> r[t.value] == Credit(ps[t.value], ps[k].votes as real))
           && forall j :: 0 <= j < |ps| && j != k && j != t.value ==> r[j] == ps[j])
  {
    var p := ps[k];
    var stripped := if p.seats > 0 then ps[k := p.(unspent := p.unspent + Price(p.seats, cost), seats := 0)] else ps;
    TransferTargetFinalizedOnly(keys, ps, stripped, prefs, k);
  }

  // ---------------------------------------------------------------------------
  // The main loop

  function Active(p: LegacyParty): real
  {
    if p.finalized then 0.0 else p.unspent
  }

  /** The unspent votes of the parties not yet finalized. */
  function TotalUnspent(ps: seq<LegacyParty>): (r: real)
    ensures (forall i :: 0 <= i < |ps| ==> ps[i].unspent >= 0.0) ==> r >= 0.0
    ensures (forall i :: 0 <= i < |ps| ==> ps[i].finalized) ==> r == 0.0
  {
    if ps == [] then 0.0 else TotalUnspent(ps[..|ps| - 1]) + Active(ps[|ps| - 1])
  }

  /** Replacing one record changes the unspent total by the change in that record's active votes. */
  lemma {:induction false} TotalUnspentUpdate(ps: seq<LegacyParty>, i: nat, p: LegacyParty)
    requires i < |ps|
    ensures TotalUnspent(ps[i := p]) == TotalUnspent(ps) - Active(ps[i]) + Active(p)
  {
    var t := ps[i := p];
    if i < |ps| - 1 {
      assert t[..|t| - 1] == ps[..|ps| - 1][i := p];
      TotalUnspentUpdate(ps[..|ps| - 1], i, p);
    } else {
      assert t[..|t| - 1] == ps[..|ps| - 1];
    }
  }

  /**
   * `computeSeatCost()`: the active unspent votes over the remaining seats,
   * or 0 when no seat remains or nothing is unspent.
   */
  function SeatCost(ps: seq<LegacyParty>, totalSeats: int): (r: real)
    ensures r > 0.0 <==> totalSeats - SeatsFilled(ps) > 0 && TotalUnspent(ps) > 0.0
  {
    var remaining := totalSeats - SeatsFilled(ps);
    if remaining <= 0 then 0.0
    else if TotalUnspent(ps) > 0.0 then TotalUnspent(ps) / remaining as real
    else 0.0
  }

  /** The award pass so far: the records and `awardedThisRound`. */
  datatype Award = Award(ps: seq<LegacyParty>, awarded: int)

  /**
   * One party's turn: an active party whose unspent votes pay for `extra > 0`
   * seats takes `min(extra, totalSeats - seatsFilled() - awardedThisRound)`,
   * which counts this round's seats twice and can be negative.
   */
  function AwardOne(st: Award, totalSeats: int, cost: real, i: nat): (r: Award)
    requires i < |st.ps| && cost > 0.0
    ensures |r.ps| == |st.ps|
  {
    var p := st.ps[i];
    var extra := (p.unspent / cost).Floor;
    if p.finalized || extra <= 0 then st
    else
      var take := Min(extra, totalSeats - SeatsFilled(st.ps) - st.awarded);
      Award(st.ps[i := Buy(p, take, cost)], st.awarded + take)
  }

  /** `p.seats += take; p.unspent -= take * cost`. */
  function Buy(p: LegacyParty, take: int, cost: real): LegacyParty
  {
    p.(seats := p.seats + take, unspent := p.unspent - take as real * cost)
  }

  function AwardFrom(ps: seq<LegacyParty>, totalSeats: int, cost: real, n: nat): (r: Award)
    requires n <= |ps| && cost > 0.0
    ensures |r.ps| == |ps|
  {
    if n == 0 then Award(ps, 0) else AwardOne(AwardFrom(ps, totalSeats, cost, n - 1), totalSeats, cost, n - 1)
  }

  /** What the award pass keeps, from records ps0 that did not overfill. */
  predicate AwardDone(ps0: seq<LegacyParty>, st: Award, totalSeats: int, cost: real)
    requires |st.ps| == |ps0|
  {
    && SeatsFilled(st.ps) == SeatsFilled(ps0) + st.awarded
    && 0 <= st.awarded <= totalSeats - SeatsFilled(ps0)
    && NonNegativeUnspent(st.ps)
    && Frozen(ps0, st.ps)
    && (forall i :: 0 <= i < |ps0| ==>
          st.ps[i].finalized == ps0[i].finalized && Worth(st.ps[i], cost) == Worth(ps0[i], cost))
  }

  /**
   * The award pass never overfills, keeps unspent votes non-negative,
   * converts unspent votes into seats at the round's cost and leaves
   * finalized parties untouched.
   */
  lemma {:induction false} AwardBounds(ps: seq<LegacyParty>, totalSeats: int, cost: real, n: nat)
    requires n <= |ps| && cost > 0.0
    requires SeatsFilled(ps) <= totalSeats && NonNegativeUnspent(ps)
    ensures AwardDone(ps, AwardFrom(ps, totalSeats, cost, n), totalSeats, cost)
  {
    if n > 0 {
      AwardBounds(ps, totalSeats, cost, n - 1);
      AwardStep(ps, AwardFrom(ps, totalSeats, cost, n - 1), totalSeats, cost, n - 1);
    }
  }

  lemma AwardStep(ps0: seq<LegacyParty>, st: Award, totalSeats: int, cost: real, i: nat)
    requires |ps0| == |st.ps| && i < |ps0| && cost > 0.0
    requires AwardDone(ps0, st, totalSeats, cost)
    ensures AwardDone(ps0, AwardOne(st, totalSeats, cost, i), totalSeats, cost)
  {
    var p := st.ps[i];
    var extra := (p.unspent / cost).Floor;
    if !p.finalized && extra > 0 {
      var take := Min(extra, totalSeats - SeatsFilled(st.ps) - st.awarded);
      var q := Buy(p, take, cost);
      SeatsFilledUpdate(st.ps, i, q);
      TakeKeepsValue(p, cost, take);
      var r := AwardOne(st, totalSeats, cost, i);
      assert r == Award(st.ps[i := q], st.awarded + take);
      forall j | 0 <= j < |ps0|
        ensures r.ps[j].votes == ps0[j].votes && r.ps[j].finalized == ps0[j].finalized && r.ps[j].unspent >= 0.0
        ensures Worth(r.ps[j], cost) == Worth(ps0[j], cost)
        ensures ps0[j].finalized ==> r.ps[j] == ps0[j]
      {
        if j != i {
          assert r.ps[j] == st.ps[j];
        }
      }
    }
  }

  /** A party's seats priced at the cost plus its unspent votes. */
  function Worth(p: LegacyParty, cost: real): real
  {
    p.seats as real * cost + p.unspent
  }

  /** Taking at most the seats the unspent votes pay for converts votes into seats at the cost. */
  lemma TakeKeepsValue(p: LegacyParty, cost: real, take: int)
    requires cost > 0.0 && take <= (p.unspent / cost).Floor
    ensures Buy(p, take, cost).unspent >= 0.0
    ensures Worth(Buy(p, take, cost), cost) == Worth(p, cost)
  {
    var q := p.unspent / cost;
    assert take as real <= q;
    assert take as real * cost <= q * cost;
    assert q * cost == p.unspent;
    assert (p.seats + take) as real * cost == p.seats as real * cost + take as real * cost;
  }

  /** The weakest party gives its unspent votes, if any, to its first live preference and is finalized. */
  function FinalizeOne(keys: seq<string>, ps: seq<LegacyParty>, prefs: map<string, seq<string>>, w: nat): (r: seq<LegacyParty>)
    requires |keys| == |ps| && w < |ps|
    ensures |r| == |ps|
  {
    var loser := ps[w];
    var target := TransferTarget(keys, ps, prefs, w);
    var moved := if loser.unspent > 0.0 && target.Some? then
        ps[target.value := Credit(ps[target.value], loser.unspent)]
      else ps;
    moved[w := moved[w].(unspent := 0.0, finalized := true)]
  }

  /**
   * Finalizing party w: w ends finalized with its seats and votes and
   * nothing unspent; when it had unspent votes and a live preference t other
   * than itself, t gains them and the active unspent total is unchanged;
   * otherwise the total drops by w's unspent votes. Every other party is
   * unchanged.
   */
  lemma FinalizeOneEffect(keys: seq<string>, ps: seq<LegacyParty>, prefs: map<string, seq<string>>, w: nat)
    requires |keys| == |ps| && w < |ps| && !ps[w].finalized
    ensures var f := FinalizeOne(keys, ps, prefs, w);
      var t := TransferTarget(keys, ps, prefs, w);
      var moves := ps[w].unspent > 0.0 && t.Some? && t.value != w;
      var done := ps[w].(unspent := 0.0, finalized := true);
      && (moves ==> f == ps[w := done][t.value := Credit(ps[t.value], ps[w].unspent)] && TotalUnspent(f) == TotalUnspent(ps))
      && (!moves ==> f == ps[w := done] && TotalUnspent(f) == TotalUnspent(ps) - ps[w].unspent)
  {
    var t := TransferTarget(keys, ps, prefs, w);
    var done := ps[w].(unspent := 0.0, finalized := true);
    if ps[w].unspent > 0.0 && t.Some? && t.value != w {
      var gain := Credit(ps[t.value], ps[w].unspent);
      var moved := ps[t.value := gain];
      assert moved[w] == ps[w];
      assert FinalizeOne(keys, ps, prefs, w) == moved[w := done];
      assert moved[w := done] == ps[w := done][t.value := gain];
      TotalUnspentUpdate(ps, t.value, gain);
      TotalUnspentUpdate(moved, w, done);
    } else {
      if ps[w].unspent > 0.0 && t.Some? {
        var moved := ps[w := Credit(ps[w], ps[w].unspent)];
        assert moved[w := done] == ps[w := done];
      }
      TotalUnspentUpdate(ps, w, done);
    }
  }

  /** Finalizing keeps the seats, keeps unspent votes non-negative and leaves finalized records untouched. */
  lemma FinalizeKeeps(keys: seq<string>, ps: seq<LegacyParty>, prefs: map<string, seq<string>>, w: nat)
    requires |keys| == |ps| && w < |ps| && !ps[w].finalized && NonNegativeUnspent(ps)
    ensures var f := FinalizeOne(keys, ps, prefs, w);
      && Frozen(ps, f) && NonNegativeUnspent(f) && SeatsFilled(f) == SeatsFilled(ps)
      && f[w] == ps[w].(unspent := 0.0, finalized := true)
  {
    var f := FinalizeOne(keys, ps, prefs, w);
    var target := TransferTarget(keys, ps, prefs, w);
    if ps[w].unspent > 0.0 && target.Some? {
      var t := target.value;
      var moved := ps[t := Credit(ps[t], ps[w].unspent)];
      assert f == moved[w := moved[w].(unspent := 0.0, finalized := true)];
      forall i | 0 <= i < |ps|
        ensures f[i].votes == ps[i].votes && f[i].seats == ps[i].seats && f[i].unspent >= 0.0
        ensures ps[i].finalized ==> f[i] == ps[i]
      {
        if i != w && i != t {
          assert f[i] == ps[i];
        }
      }
    } else {
      assert f == ps[w := ps[w].(unspent := 0.0, finalized := true)];
    }
    SeatsFilledSame(ps, f);
  }

  /** The outcome of one pass of the loop: the records and whether it broke off. */
  datatype Pass = Pass(ps: seq<LegacyParty>, stop: bool)

  /**
   * One pass of `while (seatsFilled() < totalSeats && guard++ < 5000)`: a
   * zero cost, a full parliament or no active party breaks off; a pass that
   * awards no seat finalizes the weakest party.
   */
  function Round(keys: seq<string>, prefs: map<string, seq<string>>, totalSeats: int, ps: seq<LegacyParty>): (r: Pass)
    requires |keys| == |ps|
    ensures |r.ps| == |ps|
  {
    var cost := SeatCost(ps, totalSeats);
    if cost <= 0.0 then Pass(ps, true)
    else
      var aw := AwardFrom(ps, totalSeats, cost, |ps|);
      if SeatsFilled(aw.ps) >= totalSeats then Pass(aw.ps, true)
      else if aw.awarded != 0 then Pass(aw.ps, false)
      else
        match Weakest(aw.ps, |aw.ps|)
        case None => Pass(aw.ps, true)
        case Some(w) => Pass(FinalizeOne(keys, aw.ps, prefs, w), false)
  }

  /** The loop from guard value `guard` on. */
  function Run(keys: seq<string>, prefs: map<string, seq<string>>, totalSeats: int, ps: seq<LegacyParty>, guard: nat): (r: seq<LegacyParty>)
    requires |keys| == |ps|
    ensures |r| == |ps|
    decreases 5000 - guard
  {
    if SeatsFilled(ps) < totalSeats && guard < 5000 then
      var pass := Round(keys, prefs, totalSeats, ps);
      if pass.stop then pass.ps else Run(keys, prefs, totalSeats, pass.ps, guard + 1)
    else ps
  }

  /** One pass keeps unspent votes non-negative, never overfills and leaves finalized records untouched. */
  lemma RoundKeeps(keys: seq<string>, prefs: map<string, seq<string>>, totalSeats: int, ps: seq<LegacyParty>)
    requires |keys| == |ps| && SeatsFilled(ps) <= totalSeats && NonNegativeUnspent(ps)
    ensures var r := Round(keys, prefs, totalSeats, ps).ps;
      NonNegativeUnspent(r) && SeatsFilled(r) <= totalSeats && Frozen(ps, r)
  {
    var cost := SeatCost(ps, totalSeats);
    if cost > 0.0 {
      AwardBounds(ps, totalSeats, cost, |ps|);
      var aw := AwardFrom(ps, totalSeats, cost, |ps|);
      var w := Weakest(aw.ps, |aw.ps|);
      if SeatsFilled(aw.ps) < totalSeats && aw.awarded == 0 && w.Some? {
        FinalizeKeeps(keys, aw.ps, prefs, w.value);
        FrozenTrans(ps, aw.ps, FinalizeOne(keys, aw.ps, prefs, w.value));
      }
    }
  }

  /** The award pass never changes which parties are finalized. */
  lemma {:induction false} AwardKeepsFinalized(ps: seq<LegacyParty>, totalSeats: int, cost: real, n: nat)
    requires n <= |ps| && cost > 0.0
    ensures forall j :: 0 <= j < |ps| ==> AwardFrom(ps, totalSeats, cost, n).ps[j].finalized == ps[j].finalized
  {
    if n > 0 {
      AwardKeepsFinalized(ps, totalSeats, cost, n - 1);
      var st := AwardFrom(ps, totalSeats, cost, n - 1);
      var r := AwardOne(st, totalSeats, cost, n - 1);
      forall j | 0 <= j < |ps|
        ensures r.ps[j].finalized == st.ps[j].finalized
      {
      }
    }
  }

  /**
   * A pass finalizes a party only when it awarded no seat in that pass, the
   * parliament is still not full, and the party is the weakest active one.
   */
  lemma FinalizesOnlyWhenIdle(keys: seq<string>, prefs: map<string, seq<string>>, totalSeats: int, ps: seq<LegacyParty>, i: nat)
    requires |keys| == |ps| && i < |ps|
    ensures Round(keys, prefs, totalSeats, ps).ps[i].finalized != ps[i].finalized ==>
      && SeatCost(ps, totalSeats) > 0.0
      && AwardFrom(ps, totalSeats, SeatCost(ps, totalSeats), |ps|).awarded == 0
      && SeatsFilled(AwardFrom(ps, totalSeats, SeatCost(ps, totalSeats), |ps|).ps) < totalSeats
      && Weakest(AwardFrom(ps, totalSeats, SeatCost(ps, totalSeats), |ps|).ps, |ps|) == Some(i)
  {
    var cost := SeatCost(ps, totalSeats);
    if cost > 0.0 {
      AwardKeepsFinalized(ps, totalSeats, cost, |ps|);
      var aw := AwardFrom(ps, totalSeats, cost, |ps|);
      var w := Weakest(aw.ps, |aw.ps|);
      if SeatsFilled(aw.ps) < totalSeats && aw.awarded == 0 && w.Some? && w.value != i {
        var target := TransferTarget(keys, aw.ps, prefs, w.value);
        var moved := if aw.ps[w.value].unspent > 0.0 && target.Some? then
            aw.ps[target.value := Credit(aw.ps[target.value], aw.ps[w.value].unspent)]
          else aw.ps;
        assert moved[i].finalized == aw.ps[i].finalized;
        assert FinalizeOne(keys, aw.ps, prefs, w.value)[i] == moved[i];
      }
    }
  }

  /** The whole loop keeps the same facts. */
  lemma {:induction false} RunKeeps(keys: seq<string>, prefs: map<string, seq<string>>, totalSeats: int, ps: seq<LegacyParty>, guard: nat)
    requires |keys| == |ps| && SeatsFilled(ps) <= totalSeats && NonNegativeUnspent(ps)
    ensures var r := Run(keys, prefs, totalSeats, ps, guard);
      NonNegativeUnspent(r) && SeatsFilled(r) <= totalSeats && Frozen(ps, r)
    decreases 5000 - guard
  {
    if SeatsFilled(ps) < totalSeats && guard < 5000 {
      var pass := Round(keys, prefs, totalSeats, ps);
      RoundKeeps(keys, prefs, totalSeats, ps);
      if !pass.stop {
        RunKeeps(keys, prefs, totalSeats, pass.ps, guard + 1);
        FrozenTrans(ps, pass.ps, Run(keys, prefs, totalSeats, pass.ps, guard + 1));
      }
    }
  }

  // ---------------------------------------------------------------------------
  // The whole allocation

  predicate CanAllocate(keys: seq<string>, votes: seq<int>, totalSeats: int)
  {
    |keys| == |votes| && DistinctKeys(keys) && totalSeats > 0 && Sum(ClampVotes(votes)) > 0
  }

  function ThresholdVotes(votes: seq<int>, threshold: real): real
  {
    if threshold > 0.0 then Sum(ClampVotes(votes)) as real * threshold else 0.0
  }

  /** The records the main loop starts from: round 1, then the threshold step. */
  function AfterThreshold(keys: seq<string>, votes: seq<int>, totalSeats: int, prefs: map<string, seq<string>>, threshold: real): (r: seq<LegacyParty>)
    requires CanAllocate(keys, votes, totalSeats)
    ensures |r| == |keys|
  {
    var cost := InitialCost(votes, totalSeats);
    ThresholdFrom(keys, InitialParties(votes, cost), prefs, ThresholdVotes(votes, threshold), cost, |votes|)
  }

  /** The seats per party, in key order. */
  function Allocate(keys: seq<string>, votes: seq<int>, totalSeats: int, prefs: map<string, seq<string>>, threshold: real): (r: seq<int>)
    requires CanAllocate(keys, votes, totalSeats)
    ensures |r| == |keys|
  {
    var ps := Run(keys, prefs, totalSeats, AfterThreshold(keys, votes, totalSeats, prefs, threshold), 0);
    seq(|ps|, i requires 0 <= i < |ps| => ps[i].seats)
  }

  lemma StartFacts(keys: seq<string>, votes: seq<int>, totalSeats: int, prefs: map<string, seq<string>>, threshold: real)
    requires CanAllocate(keys, votes, totalSeats)
    ensures var ps := AfterThreshold(keys, votes, totalSeats, prefs, threshold);
      && ThresholdDone(InitialParties(votes, InitialCost(votes, totalSeats)), ps, ThresholdVotes(votes, threshold), |votes|)
      && SeatsFilled(ps) <= totalSeats
  {
    var cost := InitialCost(votes, totalSeats);
    var ps1 := InitialParties(votes, cost);
    forall i | 0 <= i < |votes| {
      InitialSplit(Max(0, votes[i]), cost);
    }
    ThresholdResult(keys, ps1, prefs, ThresholdVotes(votes, threshold), cost, |votes|);
    InitialNoOverfill(votes, totalSeats);
    SeatsFilledMonotone(ps1, AfterThreshold(keys, votes, totalSeats, prefs, threshold));
  }

  lemma {:induction false} SumSeats(ps: seq<LegacyParty>, r: seq<int>)
    requires |r| == |ps| && forall i :: 0 <= i < |ps| ==> r[i] == ps[i].seats
    ensures Sum(r) == SeatsFilled(ps)
  {
    if ps != [] {
      SumSeats(ps[..|ps| - 1], r[..|r| - 1]);
    }
  }

  /**
   * Unlike the TypeScript allocator, the older one never overfills the
   * parliament: its unrounded initial cost keeps round 1 within the seats,
   * and every later pass stays within them.
   */
  lemma AllocateNoOverfill(keys: seq<string>, votes: seq<int>, totalSeats: int, prefs: map<string, seq<string>>, threshold: real)
    requires CanAllocate(keys, votes, totalSeats)
    ensures Sum(Allocate(keys, votes, totalSeats, prefs, threshold)) <= totalSeats
  {
    var ps := AfterThreshold(keys, votes, totalSeats, prefs, threshold);
    StartFacts(keys, votes, totalSeats, prefs, threshold);
    RunKeeps(keys, prefs, totalSeats, ps, 0);
    SumSeats(Run(keys, prefs, totalSeats, ps, 0), Allocate(keys, votes, totalSeats, prefs, threshold));
  }

  /** A party whose votes fall short of the threshold ends with no seats. */
  lemma AllocateBelowThreshold(keys: seq<string>, votes: seq<int>, totalSeats: int, prefs: map<string, seq<string>>,
                               threshold: real, i: nat)
    requires CanAllocate(keys, votes, totalSeats) && i < |keys|
    requires (Max(0, votes[i]) as real) < ThresholdVotes(votes, threshold)
    ensures Allocate(keys, votes, totalSeats, prefs, threshold)[i] == 0
  {
    var ps := AfterThreshold(keys, votes, totalSeats, prefs, threshold);
    StartFacts(keys, votes, totalSeats, prefs, threshold);
    RunKeeps(keys, prefs, totalSeats, ps, 0);
  }

  // ---------------------------------------------------------------------------
  // The allocator, step by step

  /**
   * `allocateSeatsFairShareTransfersWithSteps` of the older script: copy the
   * clamped votes, make the unrounded initial allocation, apply the
   * threshold, run the guarded main loop and read off the seats.
   */
  method AllocateSeatsFairShareTransfersWithSteps(keys: seq<string>, votes: seq<int>, totalSeats: int,
                                                  prefs: map<string, seq<string>>, threshold: real)
    returns (seats: seq<int>)
    requires CanAllocate(keys, votes, totalSeats)
    ensures seats == Allocate(keys, votes, totalSeats, prefs, threshold)
  {
    var ps, grandTotal := InitParties(votes);
    var thresholdVotes := if threshold > 0.0 then grandTotal as real * threshold else 0.0;
    assert thresholdVotes == ThresholdVotes(votes, threshold);
    var initialCost := grandTotal as real / totalSeats as real;
    assert initialCost == InitialCost(votes, totalSeats);
    ps := InitialAllocation(ps, initialCost);
    assert ps == InitialParties(votes, initialCost);
    ps := ApplyThreshold(keys, ps, prefs, thresholdVotes, initialCost);
    ps := RunRounds(keys, prefs, totalSeats, ps);
    seats := SeatsByParty(ps);
  }

  /** `result[k] = parties[k].seats` for every key. */
  method SeatsByParty(ps: seq<LegacyParty>) returns (seats: seq<int>)
    ensures |seats| == |ps| && forall j :: 0 <= j < |ps| ==> seats[j] == ps[j].seats
  {
    seats := [];
    for i := 0 to |ps|
      invariant |seats| == i && forall j :: 0 <= j < i ==> seats[j] == ps[j].seats
    {
      seats := seats + [ps[i].seats];
    }
  }

  /** The deep copy of the votes: one fresh record per key, and the grand total of the clamped votes. */
  method InitParties(votes: seq<int>) returns (ps: seq<LegacyParty>, grandTotal: int)
    ensures |ps| == |votes| && forall j :: 0 <= j < |votes| ==> ps[j] == PartyState(Max(0, votes[j]), 0, 0.0, false)
    ensures grandTotal == Sum(ClampVotes(votes))
  {
    ps := [];
    grandTotal := 0;
    for i := 0 to |votes|
      invariant |ps| == i && forall j :: 0 <= j < i ==> ps[j] == PartyState(Max(0, votes[j]), 0, 0.0, false)
      invariant grandTotal == Sum(ClampVotes(votes)[..i])
    {
      var v := Max(0, votes[i]);
      ps := ps + [PartyState(v, 0, 0.0, false)];
      assert ClampVotes(votes)[..i + 1][..i] == ClampVotes(votes)[..i];
      grandTotal := grandTotal + v;
    }
    assert ClampVotes(votes)[..|votes|] == ClampVotes(votes);
  }

  /** Round 1: `p.seats = Math.floor(p.votes / initialCost)` and the fractional rest unspent, for every party. */
  method InitialAllocation(ps0: seq<LegacyParty>, cost: real) returns (ps: seq<LegacyParty>)
    requires cost > 0.0 && forall j :: 0 <= j < |ps0| ==> !ps0[j].finalized
    ensures |ps| == |ps0| && forall j :: 0 <= j < |ps0| ==> ps[j] == InitialParty(ps0[j].votes, cost)
  {
    ps := ps0;
    for i := 0 to |ps0|
      invariant |ps| == |ps0|
      invariant forall j :: 0 <= j < i ==> ps[j] == InitialParty(ps0[j].votes, cost)
      invariant forall j :: i <= j < |ps| ==> ps[j] == ps0[j]
    {
      var seats := (ps[i].votes as real / cost).Floor;
      ps := ps[i := ps[i].(seats := seats, unspent := ps[i].votes as real - Price(seats, cost))];
    }
  }

  /**
   * The threshold step: each party whose votes were below the threshold
   * returns its seats' worth to its unspent votes, passes its full votes to
   * its first live preference and is finalized, in key order.
   */
  method ApplyThreshold(keys: seq<string>, ps0: seq<LegacyParty>, prefs: map<string, seq<string>>, thresholdVotes: real, cost: real)
    returns (ps: seq<LegacyParty>)
    requires |keys| == |ps0|
    ensures ps == ThresholdFrom(keys, ps0, prefs, thresholdVotes, cost, |ps0|)
  {
    ps := ps0;
    for k := 0 to |ps0|
      invariant ps == ThresholdFrom(keys, ps0, prefs, thresholdVotes, cost, k)
    {
      if (ps0[k].votes as real) < thresholdVotes {
        ps := ThresholdParty(keys, ps, prefs, cost, k);
      }
    }
  }

  /** One below-threshold party: give back its seats, pass on its votes, finalize it. */
  method ThresholdParty(keys: seq<string>, ps0: seq<LegacyParty>, prefs: map<string, seq<string>>, cost: real, k: nat)
    returns (ps: seq<LegacyParty>)
    requires |keys| == |ps0| && k < |ps0|
    ensures ps == ThresholdOne(keys, ps0, prefs, cost, k)
  {
    ps := ps0;
    var p := ps[k];
    if p.seats > 0 {
      ps := ps[k := p.(unspent := p.unspent + Price(p.seats, cost), seats := 0)];
    }
    var target := TransferTarget(keys, ps, prefs, k);
    if target.Some? {
      var t := target.value;
      ps := ps[t := Credit(ps[t], p.votes as real)];
    }
    ps := ps[k := ps[k].(unspent := 0.0, finalized := true)];
  }

  /** `while (seatsFilled() < totalSeats && guard++ < 5000)`, with its breaks. */
  method RunRounds(keys: seq<string>, prefs: map<string, seq<string>>, totalSeats: int, ps0: seq<LegacyParty>)
    returns (ps: seq<LegacyParty>)
    requires |keys| == |ps0|
    ensures ps == Run(keys, prefs, totalSeats, ps0, 0)
  {
    ps := ps0;
    var guard := 0;
    while SeatsFilled(ps) < totalSeats && guard < 5000
      invariant |ps| == |keys| && guard <= 5000
      invariant Run(keys, prefs, totalSeats, ps, guard) == Run(keys, prefs, totalSeats, ps0, 0)
      decreases 5000 - guard
    {
      guard := guard + 1;
      var stop;
      ps, stop := PlayRound(keys, prefs, totalSeats, ps);
      if stop {
        break;
      }
    }
  }

  /** One pass: the seat cost, the awards, then a break or the finalization of the weakest party. */
  method PlayRound(keys: seq<string>, prefs: map<string, seq<string>>, totalSeats: int, ps0: seq<LegacyParty>)
    returns (ps: seq<LegacyParty>, stop: bool)
    requires |keys| == |ps0|
    ensures Pass(ps, stop) == Round(keys, prefs, totalSeats, ps0)
  {
    var cost := SeatCost(ps0, totalSeats);
    if cost <= 0.0 {
      return ps0, true;
    }
    var awarded;
    ps, awarded := AwardSeats(ps0, totalSeats, cost);
    if SeatsFilled(ps) >= totalSeats {
      return ps, true;
    }
    if awarded == 0 {
      var loser := Weakest(ps, |ps|);
      if loser.None? {
        return ps, true;
      }
      var w := loser.value;
      if ps[w].unspent > 0.0 {
        var target := TransferTarget(keys, ps, prefs, w);
        if target.Some? {
          var t := target.value;
          ps := ps[t := Credit(ps[t], ps[w].unspent)];
        }
      }
      ps := ps[w := ps[w].(unspent := 0.0, finalized := true)];
    }
    stop := false;
  }

  /** The award pass: every active party buys the seats its unspent votes pay for, within the double-counted remainder. */
  method AwardSeats(ps0: seq<LegacyParty>, totalSeats: int, cost: real) returns (ps: seq<LegacyParty>, awarded: int)
    requires cost > 0.0
    ensures Award(ps, awarded) == AwardFrom(ps0, totalSeats, cost, |ps0|)
  {
    ps, awarded := ps0, 0;
    for i := 0 to |ps0|
      invariant Award(ps, awarded) == AwardFrom(ps0, totalSeats, cost, i)
    {
      if !ps[i].finalized {
        var extra := (ps[i].unspent / cost).Floor;
        if extra > 0 {
          var take := Min(extra, totalSeats - SeatsFilled(ps) - awarded);
          ps := ps[i := Buy(ps[i], take, cost)];
          awarded := awarded + take;
        }
      }
    }
  }
}
