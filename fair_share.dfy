/**
 * `allocateSeatsFairShareTransfersWithSteps` of src/lib/seat-allocation.ts:
 * the fair-share transfer allocator with its round-by-round record.
 *
 * Votes are integers, so every cost is an integer: `Math.round(a / b)` is
 * Base.RoundDiv and `Math.floor(u / c)` for a positive c is `u / c`. The
 * parties object is a sequence of records aligned with its keys; each step of
 * the source that changes records in place is a method over that sequence,
 * proved equal to a specification function, and the properties are lemmas
 * about the functions.
 */
module FairShare {
  import opened Base
  import opened StableSort
  import opened Parties

  type Party = PartyState<int>

  datatype Reason = BelowThreshold | FinalizedParty

  /** A transfer record, without the display names. */
  datatype Transfer = Transfer(from: string, to: string, votes: int, reason: Reason)

  datatype SeatAward = SeatAward(party: string, seats: int)

  datatype RoundKind = InitialRound | AllocationRound

  /** A party's row in a round snapshot, without the display name. */
  datatype RoundPartyState = RoundPartyState(votes: int, seats: int, unspent: int, finalized: bool, currentVotes: int)

  /**
   * A round's record. `seatsFilled` is the field the source calls
   * `totalSeats`, which `captureRoundState` sets to the seats filled so far.
   */
  datatype RoundData = RoundData(
    number: int,
    kind: RoundKind,
    parties: seq<RoundPartyState>,
    transfers: seq<Transfer>,
    seatCost: int,
    seatsAllocated: int,
    seatsRemaining: int,
    seatsFilled: int,
    thresholdVotes: Option<real>,
    thresholdSeats: Option<int>,
    totalVotes: Option<int>,
    seatAwards: Option<seq<SeatAward>>)

  datatype FinalParty = FinalParty(key: string, originalVotes: int, finalSeats: int, votesPerSeat: int)

  datatype Summary = Summary(
    totalVotes: int,
    totalSeats: int,
    threshold: real,
    thresholdVotes: real,
    initialCostPerSeat: int,
    finalParties: seq<FinalParty>)

  datatype AllocationResult = AllocationResult(seats: seq<int>, rounds: seq<RoundData>, summary: Summary)

  // ---------------------------------------------------------------------------
  // The reductions and the round snapshot

  function Active(p: Party): int
  {
    if p.finalized then 0 else p.unspent
  }

  /** `totalUnspent()`: the unspent votes of the parties not yet finalized. */
  function TotalUnspent(ps: seq<Party>): (r: int)
    ensures (forall i :: 0 <= i < |ps| ==> ps[i].unspent >= 0) ==> r >= 0
    ensures (forall i :: 0 <= i < |ps| ==> ps[i].finalized) ==> r == 0
  {
    if ps == [] then 0 else TotalUnspent(ps[..|ps| - 1]) + Active(ps[|ps| - 1])
  }

  /** The parties' rows as `captureRoundState` records them: a finalized party has no current votes. */
  function Snapshot(ps: seq<Party>): (r: seq<RoundPartyState>)
    ensures |r| == |ps|
    ensures forall i :: 0 <= i < |ps| ==>
      && r[i].seats == ps[i].seats && r[i].unspent == ps[i].unspent
      && r[i].currentVotes == (if ps[i].finalized then 0 else ps[i].unspent)
  {
    seq(|ps|, i requires 0 <= i < |ps| =>
      RoundPartyState(ps[i].votes, ps[i].seats, ps[i].unspent, ps[i].finalized, if ps[i].finalized then 0 else ps[i].unspent))
  }

  /** `captureRoundState(type, description)`. */
  function Capture(ps: seq<Party>, totalSeats: int, number: int, kind: RoundKind): (r: RoundData)
    ensures r.number == number && r.kind == kind && r.parties == Snapshot(ps)
    ensures r.seatsFilled == SeatsFilled(ps) && r.seatsFilled + r.seatsRemaining == totalSeats
    ensures r.transfers == [] && r.seatCost == 0 && r.seatsAllocated == 0
  {
    RoundData(number, kind, Snapshot(ps), [], 0, 0, totalSeats - SeatsFilled(ps), SeatsFilled(ps), None, None, None, None)
  }

  // ---------------------------------------------------------------------------
  // Round 1: the initial allocation

  /** The records before round 1: clamped votes, no seats, nothing unspent, none finalized. */
  function FreshParties(votes: seq<int>): (r: seq<Party>)
    ensures |r| == |votes|
  {
    seq(|votes|, i requires 0 <= i < |votes| => PartyState(Max(0, votes[i]), 0, 0, false))
  }

  /** `threshold > 0 ? grandTotal * threshold : 0`. */
  function ThresholdVotes(grandTotal: int, threshold: real): real
  {
    if threshold > 0.0 then grandTotal as real * threshold else 0.0
  }

  /** `p.seats = Math.floor(p.votes / cost); p.unspent = p.votes - p.seats * cost`. */
  function InitialParty(p: Party, cost: int): Party
    requires cost > 0
  {
    p.(seats := p.votes / cost, unspent := p.votes - (p.votes / cost) * cost)
  }

  function InitialParties(ps: seq<Party>, cost: int): (r: seq<Party>)
    requires cost > 0
    ensures |r| == |ps|
  {
    seq(|ps|, i requires 0 <= i < |ps| => InitialParty(ps[i], cost))
  }

  /**
   * The rounded initial cost is at least 1 exactly when `2 * grandTotal >=
   * totalSeats`, the precondition the source asserts; below it the cost
   * rounds to 0 and the source would divide by zero.
   */
  lemma InitialCostPositive(grandTotal: int, totalSeats: int)
    requires totalSeats > 0 && grandTotal >= 0
    ensures RoundDiv(grandTotal, totalSeats) >= 1 <==> 2 * grandTotal >= totalSeats
    ensures 2 * grandTotal < totalSeats ==> RoundDiv(grandTotal, totalSeats) == 0
  {
    var p := 2 * grandTotal + totalSeats;
    assert RoundDiv(grandTotal, totalSeats) == p / (2 * totalSeats);
    if 2 * grandTotal < totalSeats {
      DivSmall(p, 2 * totalSeats);
    } else {
      DivAtLeastOne(p, 2 * totalSeats);
    }
  }

  lemma DivSmall(p: int, q: int)
    requires 0 <= p < q
    ensures p / q == 0
  {
  }

  lemma DivAtLeastOne(p: int, q: int)
    requires 0 < q <= p
    ensures p / q >= 1
  {
  }

  /**
   * Round 1 gives each party as many whole seats as its votes pay for at the
   * initial cost and keeps the rest unspent: seats * cost + unspent = votes
   * with 0 <= unspent < cost.
   */
  lemma InitialSplit(p: Party, cost: int)
    requires cost > 0 && p.votes >= 0
    ensures var q := InitialParty(p, cost);
      && q.seats >= 0
      && q.seats * cost + q.unspent == p.votes
      && 0 <= q.unspent < cost
      && q.votes == p.votes && q.finalized == p.finalized
  {
  }

  /** The seats of round 1 add up to at most the votes over the cost. */
  lemma {:induction false} InitialSeatsBound(ps: seq<Party>, cost: int)
    requires cost > 0 && forall i :: 0 <= i < |ps| ==> ps[i].votes >= 0
    ensures SeatsFilled(InitialParties(ps, cost)) * cost <= SumVotes(ps)
  {
    if ps != [] {
      var n := |ps| - 1;
      InitialSeatsBound(ps[..n], cost);
      assert InitialParties(ps, cost)[..n] == InitialParties(ps[..n], cost);
      InitialSplit(ps[n], cost);
    }
  }

  function SumVotes(ps: seq<Party>): int
  {
    if ps == [] then 0 else SumVotes(ps[..|ps| - 1]) + ps[|ps| - 1].votes
  }

  /**
   * Rounding the initial cost down can overfill the parliament in round 1:
   * one party with 4 votes and 3 seats has cost round(4/3) = 1 and takes 4 seats.
   */
  lemma InitialRoundCanOverfill()
    ensures RoundDiv(4, 3) == 1
    ensures SeatsFilled(InitialParties(FreshParties([4]), RoundDiv(4, 3))) == 4
  {
    var ps := InitialParties(FreshParties([4]), 1);
    assert ps == [PartyState(4, 4, 0, false)];
    assert ps[..0] == [];
  }

  // ---------------------------------------------------------------------------
  // The threshold step

  /** The result of a step over the parties: the new records and the transfers it records. */
  datatype Step = Step(ps: seq<Party>, transfers: seq<Transfer>)

  /** `p.votes < thresholdVotes`, fixed before the step since votes never change. */
  predicate Below(p: Party, thresholdVotes: real)
  {
    (p.votes as real) < thresholdVotes
  }

  /**
   * One below-threshold party k: its round-1 seats go back to its unspent
   * pool, its full votes go to its first live preference (which may be a
   * party still waiting for its own threshold step, or k itself), and it is
   * finalized with nothing unspent.
   */
  function ThresholdOne(keys: seq<string>, ps: seq<Party>, prefs: map<string, seq<string>>, cost: int, k: nat): (r: Step)
    requires |keys| == |ps| && k < |ps|
    ensures |r.ps| == |ps|
  {
    var p := ps[k];
    var stripped := if p.seats > 0 then ps[k := p.(unspent := p.unspent + p.seats * cost, seats := 0)] else ps;
    var target := TransferTarget(keys, stripped, prefs, k);
    var moved := if target.Some? then
        stripped[target.value := stripped[target.value].(unspent := stripped[target.value].unspent + p.votes)]
      else stripped;
    var transfers := if target.Some? then [Transfer(keys[k], keys[target.value], p.votes, BelowThreshold)] else [];
    Step(moved[k := moved[k].(unspent := 0, finalized := true)], transfers)
  }

  /**
   * The effect of one threshold step: k ends finalized with no seats kept
   * and nothing unspent; its first live preference t, if any, gains k's votes
   * and a transfer from k to t is recorded; every other party is unchanged.
   */
  lemma ThresholdOneEffect(keys: seq<string>, ps: seq<Party>, prefs: map<string, seq<string>>, cost: int, k: nat)
    requires |keys| == |ps| && k < |ps|
    ensures var r := ThresholdOne(keys, ps, prefs, cost, k);
      var t := TransferTarget(keys, ps, prefs, k);
      && r.ps[k] == PartyState(ps[k].votes, if ps[k].seats > 0 then 0 else ps[k].seats, 0, true)
      && (t.None? ==> r.transfers == [] && forall j :: 0 <= j < |ps| && j != k ==> r.ps[j] == ps[j])
      && (t.Some? ==>
           && r.transfers == [Transfer(keys[k], keys[t.value], ps[k].votes, BelowThreshold)]
           && (t.value != k ==> r.ps[t.value] == ps[t.value].(unspent := ps[t.value].unspent + ps[k].votes))
           && forall j :: 0 <= j < |ps| && j != k && j != t.value ==> r.ps[j] == ps[j])
  {
    var p := ps[k];
    var stripped := if p.seats > 0 then ps[k := p.(unspent := p.unspent + p.seats * cost, seats := 0)] else ps;
    TransferTargetFinalizedOnly(keys, ps, stripped, prefs, k);
  }

  /** The threshold step over the first k parties, each processed only if it was below the threshold. */
  function ThresholdFrom(keys: seq<string>, ps: seq<Party>, prefs: map<string, seq<string>>, thresholdVotes: real, cost: int, k: nat): (r: Step)
    requires |keys| == |ps| && k <= |ps|
    ensures |r.ps| == |ps|
  {
    if k == 0 then Step(ps, [])
    else
      var prev := ThresholdFrom(keys, ps, prefs, thresholdVotes, cost, k - 1);
      if Below(ps[k - 1], thresholdVotes) then
        var one := ThresholdOne(keys, prev.ps, prefs, cost, k - 1);
        Step(one.ps, prev.transfers + one.transfers)
      else prev
  }

  /** What the threshold step keeps: the parties processed and those still waiting. */
  predicate ThresholdDone(ps0: seq<Party>, ps: seq<Party>, thresholdVotes: real, k: nat)
    requires |ps| == |ps0|
  {
    && (forall i :: 0 <= i < |ps| ==> ps[i].votes == ps0[i].votes && ps[i].unspent >= 0)
    && (forall i :: 0 <= i < |ps| && i < k && Below(ps0[i], thresholdVotes) ==>
          ps[i] == PartyState(ps0[i].votes, 0, 0, true))
    && (forall i :: 0 <= i < |ps| && !(i < k && Below(ps0[i], thresholdVotes)) ==>
          ps[i].seats == ps0[i].seats && !ps[i].finalized && ps[i].unspent >= ps0[i].unspent)
  }

  /**
   * After the threshold step over the first k parties (from a round-1 state:
   * seats and unspent non-negative, none finalized), every processed
   * below-threshold party holds no seats, nothing unspent and is finalized;
   * every other party keeps its seats, stays active and has at least its
   * round-1 unspent votes.
   */
  lemma {:induction false} ThresholdResult(keys: seq<string>, ps: seq<Party>, prefs: map<string, seq<string>>,
                                           thresholdVotes: real, cost: int, k: nat)
    requires |keys| == |ps| && k <= |ps| && cost > 0
    requires forall i :: 0 <= i < |ps| ==> ps[i].seats >= 0 && ps[i].unspent >= 0 && ps[i].votes >= 0 && !ps[i].finalized
    ensures ThresholdDone(ps, ThresholdFrom(keys, ps, prefs, thresholdVotes, cost, k).ps, thresholdVotes, k)
  {
    if k > 0 {
      ThresholdResult(keys, ps, prefs, thresholdVotes, cost, k - 1);
      if Below(ps[k - 1], thresholdVotes) {
        var prev := ThresholdFrom(keys, ps, prefs, thresholdVotes, cost, k - 1);
        ThresholdStep(keys, ps, prev.ps, prefs, thresholdVotes, cost, k - 1);
      }
    }
  }

  /** Processing party k keeps what the threshold step promises, now for the first k + 1 parties. */
  lemma ThresholdStep(keys: seq<string>, ps0: seq<Party>, ps: seq<Party>, prefs: map<string, seq<string>>,
                      thresholdVotes: real, cost: int, k: nat)
    requires |keys| == |ps0| == |ps| && k < |ps| && cost > 0
    requires forall i :: 0 <= i < |ps0| ==> ps0[i].seats >= 0 && ps0[i].unspent >= 0 && ps0[i].votes >= 0
    requires ThresholdDone(ps0, ps, thresholdVotes, k) && Below(ps0[k], thresholdVotes)
    ensures ThresholdDone(ps0, ThresholdOne(keys, ps, prefs, cost, k).ps, thresholdVotes, k + 1)
  {
    ThresholdOneEffect(keys, ps, prefs, cost, k);
    var r := ThresholdOne(keys, ps, prefs, cost, k).ps;
    var t := TransferTarget(keys, ps, prefs, k);
    forall i | 0 <= i < |ps|
      ensures r[i].votes == ps0[i].votes && r[i].unspent >= 0
      ensures i < k + 1 && Below(ps0[i], thresholdVotes) ==> r[i] == PartyState(ps0[i].votes, 0, 0, true)
      ensures !(i < k + 1 && Below(ps0[i], thresholdVotes)) ==>
        r[i].seats == ps0[i].seats && !r[i].finalized && r[i].unspent >= ps0[i].unspent
    {
      if i != k && t.Some? && i == t.value {
        assert r[i] == ps[i].(unspent := ps[i].unspent + ps0[k].votes);
      } else if i != k {
        assert r[i] == ps[i];
      }
    }
  }

  /**
   * Votes can be lost in the threshold step: with a and b below the
   * threshold, a preferring b and b preferring c, a's votes go to b before b
   * is processed, and b then passes on only its own votes.
   */
  lemma ThresholdLosesChainedVotes()
    ensures var keys := ["a", "b", "c"];
      var ps := [PartyState(3, 0, 3, false), PartyState(2, 0, 2, false), PartyState(95, 9, 5, false)];
      var prefs := map["a" := ["b"], "b" := ["c"]];
      var r := ThresholdFrom(keys, ps, prefs, 5.0, 10, 3);
      && r.ps == [PartyState(3, 0, 0, true), PartyState(2, 0, 0, true), PartyState(95, 9, 7, false)]
      && r.transfers == [Transfer("a", "b", 3, BelowThreshold), Transfer("b", "c", 2, BelowThreshold)]
  {
    var keys := ["a", "b", "c"];
    var ps := [PartyState(3, 0, 3, false), PartyState(2, 0, 2, false), PartyState(95, 9, 5, false)];
    var prefs := map["a" := ["b"], "b" := ["c"]];
    var s1 := [PartyState(3, 0, 0, true), PartyState(2, 0, 5, false), PartyState(95, 9, 5, false)];
    assert IndexOf(keys, "b") == 1;
    assert IndexOf(keys, "c") == 2;
    assert TransferTarget(keys, ps, prefs, 0) == Some(1);
    assert ThresholdFrom(keys, ps, prefs, 5.0, 10, 1).ps == s1;
    assert TransferTarget(keys, s1, prefs, 1) == Some(2);
    assert ThresholdFrom(keys, ps, prefs, 5.0, 10, 2).ps ==
      [PartyState(3, 0, 0, true), PartyState(2, 0, 0, true), PartyState(95, 9, 7, false)];
  }

  // ---------------------------------------------------------------------------
  // Awarding seats in a main round

  /** The state of a round's award pass: the records, `seatsAwardedThisRound` and the awards made. */
  datatype AwardState = AwardState(ps: seq<Party>, awarded: int, awards: seq<SeatAward>)

  /**
   * One party's turn in the award pass: an active party whose unspent votes
   * pay for `extra > 0` seats takes `min(extra, remainingSeats() - awarded)`
   * of them. `remainingSeats()` already counts this round's seats as filled,
   * so the awarded seats are subtracted twice, and the take can be negative.
   */
  function AwardOne(keys: seq<string>, st: AwardState, totalSeats: int, cost: int, i: nat): (r: AwardState)
    requires |keys| == |st.ps| && i < |st.ps| && cost > 0
    ensures |r.ps| == |st.ps|
  {
    var p := st.ps[i];
    var extra := p.unspent / cost;
    if p.finalized || extra <= 0 then st
    else
      var take := Min(extra, (totalSeats - SeatsFilled(st.ps)) - st.awarded);
      AwardState(st.ps[i := Buy(p, take, cost)],
                 st.awarded + take,
                 if take > 0 then st.awards + [SeatAward(keys[i], take)] else st.awards)
  }

  /** The award pass over the first n parties. */
  function AwardFrom(keys: seq<string>, ps: seq<Party>, totalSeats: int, cost: int, n: nat): (r: AwardState)
    requires |keys| == |ps| && n <= |ps| && cost > 0
    ensures |r.ps| == |ps|
  {
    if n == 0 then AwardState(ps, 0, []) else AwardOne(keys, AwardFrom(keys, ps, totalSeats, cost, n - 1), totalSeats, cost, n - 1)
  }

  /** What the award pass keeps after n parties, from records ps0 that did not overfill. */
  predicate AwardDone(ps0: seq<Party>, st: AwardState, totalSeats: int, cost: int)
    requires |st.ps| == |ps0|
  {
    && SeatsFilled(st.ps) == SeatsFilled(ps0) + st.awarded
    && 0 <= st.awarded <= totalSeats - SeatsFilled(ps0)
    && (forall i :: 0 <= i < |ps0| ==>
          && st.ps[i].votes == ps0[i].votes && st.ps[i].finalized == ps0[i].finalized
          && st.ps[i].unspent >= 0
          && Worth(st.ps[i], cost) == Worth(ps0[i], cost)
          && (ps0[i].finalized ==> st.ps[i] == ps0[i]))
    && (forall k :: 0 <= k < |st.awards| ==> st.awards[k].seats > 0)
  }

  /**
   * The award pass never overfills: it awards between 0 and the remaining
   * seats in all, every award is positive, every party converts unspent votes
   * into seats at the round's cost (seats * cost + unspent is unchanged),
   * unspent votes stay non-negative and finalized parties are untouched.
   */
  lemma {:induction false} AwardBounds(keys: seq<string>, ps: seq<Party>, totalSeats: int, cost: int, n: nat)
    requires |keys| == |ps| && n <= |ps| && cost > 0
    requires SeatsFilled(ps) <= totalSeats
    requires forall i :: 0 <= i < |ps| ==> ps[i].unspent >= 0
    ensures AwardDone(ps, AwardFrom(keys, ps, totalSeats, cost, n), totalSeats, cost)
  {
    if n > 0 {
      AwardBounds(keys, ps, totalSeats, cost, n - 1);
      AwardStep(keys, ps, AwardFrom(keys, ps, totalSeats, cost, n - 1), totalSeats, cost, n - 1);
    }
  }

  lemma AwardStep(keys: seq<string>, ps0: seq<Party>, st: AwardState, totalSeats: int, cost: int, i: nat)
    requires |keys| == |ps0| == |st.ps| && i < |ps0| && cost > 0
    requires AwardDone(ps0, st, totalSeats, cost)
    ensures AwardDone(ps0, AwardOne(keys, st, totalSeats, cost, i), totalSeats, cost)
  {
    var p := st.ps[i];
    var extra := p.unspent / cost;
    if !p.finalized && extra > 0 {
      var take := Min(extra, (totalSeats - SeatsFilled(st.ps)) - st.awarded);
      var q := Buy(p, take, cost);
      SeatsFilledUpdate(st.ps, i, q);
      TakeKeepsValue(p, cost, take);
      var r := AwardOne(keys, st, totalSeats, cost, i);
      assert r.ps == st.ps[i := q];
      forall j | 0 <= j < |ps0|
        ensures r.ps[j].votes == ps0[j].votes && r.ps[j].finalized == ps0[j].finalized && r.ps[j].unspent >= 0
        ensures Worth(r.ps[j], cost) == Worth(ps0[j], cost)
        ensures ps0[j].finalized ==> r.ps[j] == ps0[j]
      {
        if j != i {
          assert r.ps[j] == st.ps[j];
        }
      }
    }
  }

  /** Taking at most the seats the unspent votes pay for converts votes into seats at the cost. */
  lemma TakeKeepsValue(p: Party, cost: int, take: int)
    requires cost > 0 && take <= p.unspent / cost
    ensures Buy(p, take, cost).unspent >= 0
    ensures Worth(Buy(p, take, cost), cost) == Worth(p, cost)
  {
    assert take * cost <= (p.unspent / cost) * cost;
    assert (p.seats + take) * cost == p.seats * cost + take * cost;
  }

  /** `p.seats += take; p.unspent -= take * cost`. */
  function Buy(p: Party, take: int, cost: int): Party
  {
    p.(seats := p.seats + take, unspent := p.unspent - take * cost)
  }

  /** A party's seats priced at the cost plus its unspent votes. */
  function Worth(p: Party, cost: int): int
  {
    p.seats * cost + p.unspent
  }

  /**
   * The double subtraction can take seats away: with 10 seats to fill and a
   * cost of 1, a party with 6 unspent votes takes 6 seats, and the next party,
   * with 5, is then given `min(5, (10 - 6) - 6) = -2` seats.
   */
  lemma AwardCanRevokeSeats()
    ensures var r := AwardFrom(["a", "b"], [PartyState(6, 0, 6, false), PartyState(5, 0, 5, false)], 10, 1, 2);
      && r.ps == [PartyState(6, 6, 0, false), PartyState(5, -2, 7, false)]
      && r.awarded == 4
      && r.awards == [SeatAward("a", 6)]
  {
    var ps := [PartyState(6, 0, 6, false), PartyState(5, 0, 5, false)];
    var one := [PartyState(6, 6, 0, false), PartyState(5, 0, 5, false)];
    assert SeatsFilled(ps) == 0 by {
      assert ps[..1][..0] == [];
    }
    var s0 := AwardState(ps, 0, []);
    assert AwardFrom(["a", "b"], ps, 10, 1, 1) == AwardOne(["a", "b"], s0, 10, 1, 0);
    assert ps[0].unspent / 1 == 6;
    assert Buy(ps[0], 6, 1) == one[0];
    assert ps[0 := one[0]] == one;
    assert AwardOne(["a", "b"], s0, 10, 1, 0) == AwardState(one, 6, [SeatAward("a", 6)]);
    assert SeatsFilled(one) == 6 by {
      assert one[..1][..0] == [];
    }
    assert Buy(one[1], -2, 1) == PartyState(5, -2, 7, false);
  }

  // ---------------------------------------------------------------------------
  // Finalizing the weakest party

  /**
   * The loser's unspent votes go to its first live preference when it has
   * some and a target exists; the transfer records the loser's unspent votes
   * after that addition (twice its votes when it is its own target). The
   * loser is then finalized with nothing unspent and keeps its seats.
   */
  function FinalizeOne(keys: seq<string>, ps: seq<Party>, prefs: map<string, seq<string>>, w: nat): (r: Step)
    requires |keys| == |ps| && w < |ps|
    ensures |r.ps| == |ps|
  {
    var loser := ps[w];
    var target := TransferTarget(keys, ps, prefs, w);
    if loser.unspent > 0 && target.Some? then
      var t := target.value;
      var moved := ps[t := ps[t].(unspent := ps[t].unspent + loser.unspent)];
      Step(moved[w := moved[w].(unspent := 0, finalized := true)],
           [Transfer(keys[w], keys[t], moved[w].unspent, FinalizedParty)])
    else
      Step(ps[w := loser.(unspent := 0, finalized := true)], [])
  }

  /** Replacing one record changes the unspent total by the change in that record's active votes. */
  lemma {:induction false} TotalUnspentUpdate(ps: seq<Party>, i: nat, p: Party)
    requires i < |ps|
    ensures TotalUnspent(ps[i := p]) == TotalUnspent(ps) - Active(ps[i]) + Active(p)
  {
    var t := ps[i := p];
    if i < |ps| - 1 {
      assert t[..|t| - 1] == ps[..|ps| - 1][i := p];
      TotalUnspentUpdate(ps[..|ps| - 1], i, p);
    } else {
      assert t[..|t| - 1] == ps[..|ps| - 1];
    }
  }

  /**
   * Finalizing party w: w ends finalized with its seats and votes and
   * nothing unspent; when it had unspent votes and a live preference t other
   * than itself, t gains them, a transfer of exactly that many votes is
   * recorded and the active unspent total is unchanged; otherwise the total
   * drops by w's unspent votes. Every other party is unchanged.
   */
  lemma FinalizeOneEffect(keys: seq<string>, ps: seq<Party>, prefs: map<string, seq<string>>, w: nat)
    requires |keys| == |ps| && w < |ps| && !ps[w].finalized
    ensures var r := FinalizeOne(keys, ps, prefs, w);
      var t := TransferTarget(keys, ps, prefs, w);
      var moves := ps[w].unspent > 0 && t.Some? && t.value != w;
      var done := ps[w].(unspent := 0, finalized := true);
      && (moves ==>
           && r.ps == ps[w := done][t.value := ps[t.value].(unspent := ps[t.value].unspent + ps[w].unspent)]
           && r.transfers == [Transfer(keys[w], keys[t.value], ps[w].unspent, FinalizedParty)]
           && TotalUnspent(r.ps) == TotalUnspent(ps))
      && (!moves ==> r.ps == ps[w := done] && TotalUnspent(r.ps) == TotalUnspent(ps) - ps[w].unspent)
      && (ps[w].unspent <= 0 || t.None? ==> r.transfers == [])
  {
    var t := TransferTarget(keys, ps, prefs, w);
    if ps[w].unspent > 0 && t.Some? && t.value != w {
      FinalizeMoves(keys, ps, prefs, w, t.value);
    } else {
      FinalizeKeeps(keys, ps, prefs, w);
    }
  }

  lemma FinalizeMoves(keys: seq<string>, ps: seq<Party>, prefs: map<string, seq<string>>, w: nat, t: nat)
    requires |keys| == |ps| && w < |ps| && !ps[w].finalized
    requires ps[w].unspent > 0 && TransferTarget(keys, ps, prefs, w) == Some(t) && t != w
    ensures var r := FinalizeOne(keys, ps, prefs, w);
      && r.ps == ps[w := ps[w].(unspent := 0, finalized := true)][t := ps[t].(unspent := ps[t].unspent + ps[w].unspent)]
      && r.transfers == [Transfer(keys[w], keys[t], ps[w].unspent, FinalizedParty)]
      && TotalUnspent(r.ps) == TotalUnspent(ps)
  {
    var done := ps[w].(unspent := 0, finalized := true);
    var gain := ps[t].(unspent := ps[t].unspent + ps[w].unspent);
    var moved := ps[t := gain];
    assert moved[w] == ps[w];
    assert FinalizeOne(keys, ps, prefs, w).ps == moved[w := moved[w].(unspent := 0, finalized := true)];
    assert moved[w := done] == ps[w := done][t := gain];
    MoveKeepsTotal(ps, w, t);
  }

  /** Moving an active party's unspent votes to another active party and finalizing it keeps the active total. */
  lemma MoveKeepsTotal(ps: seq<Party>, w: nat, t: nat)
    requires w < |ps| && t < |ps| && w != t && !ps[w].finalized && !ps[t].finalized
    ensures var moved := ps[t := ps[t].(unspent := ps[t].unspent + ps[w].unspent)];
      TotalUnspent(moved[w := ps[w].(unspent := 0, finalized := true)]) == TotalUnspent(ps)
  {
    var gain := ps[t].(unspent := ps[t].unspent + ps[w].unspent);
    TotalUnspentUpdate(ps, t, gain);
    TotalUnspentUpdate(ps[t := gain], w, ps[w].(unspent := 0, finalized := true));
  }

  lemma FinalizeKeeps(keys: seq<string>, ps: seq<Party>, prefs: map<string, seq<string>>, w: nat)
    requires |keys| == |ps| && w < |ps| && !ps[w].finalized
    requires var t := TransferTarget(keys, ps, prefs, w); !(ps[w].unspent > 0 && t.Some? && t.value != w)
    ensures var r := FinalizeOne(keys, ps, prefs, w);
      && r.ps == ps[w := ps[w].(unspent := 0, finalized := true)]
      && TotalUnspent(r.ps) == TotalUnspent(ps) - ps[w].unspent
  {
    var done := ps[w].(unspent := 0, finalized := true);
    var t := TransferTarget(keys, ps, prefs, w);
    if ps[w].unspent > 0 && t.Some? {
      var moved := ps[w := ps[w].(unspent := ps[w].unspent + ps[w].unspent)];
      assert moved[w := done] == ps[w := done];
    }
    TotalUnspentUpdate(ps, w, done);
  }

  /** The number of finalized parties. */
  function CountFinalized(ps: seq<Party>): (r: nat)
    ensures r <= |ps|
  {
    if ps == [] then 0 else CountFinalized(ps[..|ps| - 1]) + (if ps[|ps| - 1].finalized then 1 else 0)
  }

  lemma {:induction false} CountFinalizedUpdate(ps: seq<Party>, i: nat, p: Party)
    requires i < |ps| && !ps[i].finalized && p.finalized
    ensures CountFinalized(ps[i := p]) == CountFinalized(ps) + 1
  {
    var t := ps[i := p];
    if i < |ps| - 1 {
      assert t[..|t| - 1] == ps[..|ps| - 1][i := p];
      CountFinalizedUpdate(ps[..|ps| - 1], i, p);
    } else {
      assert t[..|t| - 1] == ps[..|ps| - 1];
    }
  }

  lemma {:induction false} CountFinalizedSame(ps: seq<Party>, qs: seq<Party>)
    requires |ps| == |qs| && forall i :: 0 <= i < |ps| ==> ps[i].finalized == qs[i].finalized
    ensures CountFinalized(ps) == CountFinalized(qs)
  {
    if ps != [] {
      CountFinalizedSame(ps[..|ps| - 1], qs[..|qs| - 1]);
    }
  }

  // ---------------------------------------------------------------------------
  // The main rounds

  /** The allocator between rounds: the records, the rounds recorded, `roundNumber`, and whether the loop broke off. */
  datatype Engine = Engine(ps: seq<Party>, rounds: seq<RoundData>, roundNumber: int, stopped: bool)

  /**
   * One pass of the main loop, entered with seats still to fill. The round's
   * record is captured before the awards; a zero cost breaks off without
   * recording it. After the awards, a full parliament or no active party
   * records the round and breaks off; otherwise the weakest party is
   * finalized and the round is recorded with the new records. (The source
   * tests `remainingSeats() > 0` before finalizing, which holds here since
   * the parliament is not full.)
   */
  function Round(keys: seq<string>, prefs: map<string, seq<string>>, totalSeats: int, e: Engine): (r: Engine)
    requires |keys| == |e.ps| && SeatsFilled(e.ps) < totalSeats
    ensures |r.ps| == |e.ps|
  {
    var number := e.roundNumber + 1;
    var data := Capture(e.ps, totalSeats, number, AllocationRound);
    var cost := RoundDiv(TotalUnspent(e.ps), totalSeats - SeatsFilled(e.ps));
    if cost <= 0 then e.(roundNumber := number, stopped := true)
    else
      var aw := AwardFrom(keys, e.ps, totalSeats, cost, |e.ps|);
      var data := data.(seatCost := cost, seatsAllocated := aw.awarded, seatAwards := Some(aw.awards));
      Conclude(keys, prefs, totalSeats, e.rounds, number, data, aw.ps)
  }

  /** The end of a main round, after the awards: break off when full or when no party is active, else finalize the weakest. */
  function Conclude(keys: seq<string>, prefs: map<string, seq<string>>, totalSeats: int,
                    rounds: seq<RoundData>, number: int, data: RoundData, ps: seq<Party>): (r: Engine)
    requires |keys| == |ps|
    ensures |r.ps| == |ps|
  {
    if SeatsFilled(ps) >= totalSeats then Engine(ps, rounds + [data], number, true)
    else
      match Weakest(ps, |ps|)
      case None => Engine(ps, rounds + [data], number, true)
      case Some(w) =>
        var f := FinalizeOne(keys, ps, prefs, w);
        Engine(f.ps, rounds + [data.(parties := Snapshot(f.ps), transfers := f.transfers)], number, false)
  }

  /** `while (seatsFilled() < totalSeats && roundNumber < 100)`, until a round breaks off. */
  function Run(keys: seq<string>, prefs: map<string, seq<string>>, totalSeats: int, e: Engine): (r: Engine)
    requires |keys| == |e.ps|
    ensures |r.ps| == |e.ps|
    decreases 100 - e.roundNumber
  {
    if e.stopped || SeatsFilled(e.ps) >= totalSeats || e.roundNumber >= 100 then e
    else Run(keys, prefs, totalSeats, Round(keys, prefs, totalSeats, e))
  }

  predicate NonNegativeUnspent(ps: seq<Party>)
  {
    forall i :: 0 <= i < |ps| ==> ps[i].unspent >= 0
  }

  /**
   * Finalizing the weakest party keeps the seats, keeps unspent votes
   * non-negative, leaves finalized records untouched and adds exactly one
   * finalized party.
   */
  lemma FinalizeKeepsInvariants(keys: seq<string>, ps: seq<Party>, prefs: map<string, seq<string>>, w: nat)
    requires |keys| == |ps| && w < |ps| && !ps[w].finalized && NonNegativeUnspent(ps)
    ensures var f := FinalizeOne(keys, ps, prefs, w).ps;
      && Frozen(ps, f) && NonNegativeUnspent(f)
      && SeatsFilled(f) == SeatsFilled(ps)
      && CountFinalized(f) == CountFinalized(ps) + 1
  {
    var t := TransferTarget(keys, ps, prefs, w);
    var done := ps[w].(unspent := 0, finalized := true);
    ReplaceActive(ps, w, done);
    if ps[w].unspent > 0 && t.Some? && t.value != w {
      FinalizeMoves(keys, ps, prefs, w, t.value);
      var ps1 := ps[w := done];
      ReplaceActive(ps1, t.value, ps[t.value].(unspent := ps[t.value].unspent + ps[w].unspent));
      FrozenTrans(ps, ps1, FinalizeOne(keys, ps, prefs, w).ps);
    } else {
      FinalizeKeeps(keys, ps, prefs, w);
    }
  }

  /** Replacing an active record by one with the same votes and seats. */
  lemma ReplaceActive(ps: seq<Party>, i: nat, p: Party)
    requires i < |ps| && !ps[i].finalized && NonNegativeUnspent(ps)
    requires p.votes == ps[i].votes && p.seats == ps[i].seats && p.unspent >= 0
    ensures var q := ps[i := p];
      && Frozen(ps, q) && NonNegativeUnspent(q) && SeatsFilled(q) == SeatsFilled(ps)
      && CountFinalized(q) == CountFinalized(ps) + (if p.finalized then 1 else 0)
  {
    SeatsFilledUpdate(ps, i, p);
    if p.finalized {
      CountFinalizedUpdate(ps, i, p);
    } else {
      CountFinalizedSame(ps, ps[i := p]);
    }
  }

  /** The facts kept between rounds: non-negative unspent votes and rounds numbered 1, 2, ... with only the first initial. */
  predicate EngineOk(e: Engine)
  {
    && NonNegativeUnspent(e.ps)
    && 1 <= |e.rounds| <= e.roundNumber <= 100
    && (!e.stopped ==> |e.rounds| == e.roundNumber)
    && forall j :: 0 <= j < |e.rounds| ==> e.rounds[j].number == j + 1 && (e.rounds[j].kind == InitialRound <==> j == 0)
  }

  /**
   * What one main round promises about its result r: the round number goes
   * up by one, at most one round is recorded (numbered with it, as an
   * allocation round), the parliament is not overfilled, finalized parties
   * are untouched, and a round that does not break off finalizes exactly one
   * more party.
   */
  predicate Stepped(e: Engine, r: Engine, totalSeats: int)
  {
      && r.roundNumber == e.roundNumber + 1
      && NonNegativeUnspent(r.ps)
      && SeatsFilled(r.ps) <= totalSeats
      && Frozen(e.ps, r.ps)
      && (r.rounds == e.rounds || (|r.rounds| == |e.rounds| + 1 && r.rounds[..|e.rounds|] == e.rounds &&
            r.rounds[|e.rounds|].number == r.roundNumber && r.rounds[|e.rounds|].kind == AllocationRound))
      && (r.rounds == e.rounds ==> r.stopped)
      && (!r.stopped ==> CountFinalized(r.ps) == CountFinalized(e.ps) + 1)
  }

  /** One main round, entered with seats to fill, keeps what Stepped states. */
  lemma RoundStep(keys: seq<string>, prefs: map<string, seq<string>>, totalSeats: int, e: Engine)
    requires |keys| == |e.ps| && SeatsFilled(e.ps) < totalSeats && NonNegativeUnspent(e.ps)
    ensures Stepped(e, Round(keys, prefs, totalSeats, e), totalSeats)
  {
    var cost := RoundDiv(TotalUnspent(e.ps), totalSeats - SeatsFilled(e.ps));
    if cost > 0 {
      AwardBounds(keys, e.ps, totalSeats, cost, |e.ps|);
      var aw := AwardFrom(keys, e.ps, totalSeats, cost, |e.ps|);
      CountFinalizedSame(e.ps, aw.ps);
      var data := Capture(e.ps, totalSeats, e.roundNumber + 1, AllocationRound)
        .(seatCost := cost, seatsAllocated := aw.awarded, seatAwards := Some(aw.awards));
      ConcludeStep(keys, prefs, totalSeats, e.rounds, e.roundNumber + 1, data, aw.ps);
      FrozenTrans(e.ps, aw.ps, Round(keys, prefs, totalSeats, e).ps);
    }
  }

  /** The end of a round records it once, keeps the invariants and, unless it breaks off, finalizes one more party. */
  lemma ConcludeStep(keys: seq<string>, prefs: map<string, seq<string>>, totalSeats: int,
                     rounds: seq<RoundData>, number: int, data: RoundData, ps: seq<Party>)
    requires |keys| == |ps| && NonNegativeUnspent(ps) && SeatsFilled(ps) <= totalSeats
    ensures var r := Conclude(keys, prefs, totalSeats, rounds, number, data, ps);
      && r.roundNumber == number
      && NonNegativeUnspent(r.ps)
      && SeatsFilled(r.ps) <= totalSeats
      && Frozen(ps, r.ps)
      && |r.rounds| == |rounds| + 1 && r.rounds[..|rounds|] == rounds
      && r.rounds[|rounds|].number == data.number && r.rounds[|rounds|].kind == data.kind
      && (!r.stopped ==> CountFinalized(r.ps) == CountFinalized(ps) + 1)
  {
    if SeatsFilled(ps) < totalSeats {
      var w := Weakest(ps, |ps|);
      if w.Some? {
        FinalizeKeepsInvariants(keys, ps, prefs, w.value);
      }
    }
  }

  /** What the main loop promises about its final state r, started from e. */
  predicate RunOk(e: Engine, r: Engine, totalSeats: int)
  {
    && EngineOk(r)
    && Frozen(e.ps, r.ps)
    && (SeatsFilled(e.ps) <= totalSeats ==> SeatsFilled(r.ps) <= totalSeats)
    && |e.rounds| <= |r.rounds| && r.rounds[..|e.rounds|] == e.rounds
    && |r.rounds| <= |e.rounds| + (|e.ps| - CountFinalized(e.ps)) + 1
  }

  /**
   * The main loop keeps the round record well formed and unspent votes
   * non-negative, never overfills a parliament that round 1 did not
   * overfill, never touches a finalized party, keeps the rounds already
   * recorded, and records at most one round more than there are parties
   * still active when it starts.
   */
  lemma {:induction false} RunFacts(keys: seq<string>, prefs: map<string, seq<string>>, totalSeats: int, e: Engine)
    requires |keys| == |e.ps| && EngineOk(e)
    ensures RunOk(e, Run(keys, prefs, totalSeats, e), totalSeats)
    decreases 100 - e.roundNumber
  {
    if !(e.stopped || SeatsFilled(e.ps) >= totalSeats || e.roundNumber >= 100) {
      var e1 := Round(keys, prefs, totalSeats, e);
      RoundStep(keys, prefs, totalSeats, e);
      RunFacts(keys, prefs, totalSeats, e1);
      var r := Run(keys, prefs, totalSeats, e1);
      assert e1.stopped ==> r == e1;
      assert Run(keys, prefs, totalSeats, e) == r;
      RunChain(e, e1, r, totalSeats);
    } else {
      RunOkStopped(e, totalSeats);
    }
  }

  lemma RunOkStopped(e: Engine, totalSeats: int)
    requires EngineOk(e)
    ensures RunOk(e, e, totalSeats)
  {
    assert e.rounds[..|e.rounds|] == e.rounds;
  }

  /** Chaining one round with the rest of the loop. */
  lemma RunChain(e: Engine, e1: Engine, r: Engine, totalSeats: int)
    requires EngineOk(e) && !e.stopped && SeatsFilled(e.ps) < totalSeats && e.roundNumber < 100
    requires Stepped(e, e1, totalSeats)
    requires e1.stopped ==> r == e1
    requires EngineOk(e1) ==> RunOk(e1, r, totalSeats)
    ensures RunOk(e, r, totalSeats)
  {
    assert EngineOk(e1) by {
      if |e1.rounds| == |e.rounds| + 1 {
        forall j | 0 <= j < |e1.rounds|
          ensures e1.rounds[j].number == j + 1 && (e1.rounds[j].kind == InitialRound <==> j == 0)
        {
          if j < |e.rounds| {
            assert e1.rounds[j] == e1.rounds[..|e.rounds|][j];
          }
        }
      }
    }
    assert r.rounds[..|e.rounds|] == r.rounds[..|e1.rounds|][..|e.rounds|];
  }

  // ---------------------------------------------------------------------------
  // The result

  /** `p.seats > 0 ? Math.round(p.originalVotes / p.seats) : 0`. */
  function VotesPerSeat(p: Party): (r: int)
    ensures p.seats > 0 && p.votes >= 0 ==> r >= 0
  {
    if p.seats > 0 then (RoundDivNonNegativeIf(p.votes, p.seats); RoundDiv(p.votes, p.seats)) else 0
  }

  lemma RoundDivNonNegativeIf(a: int, b: int)
    requires b > 0
    ensures a >= 0 ==> RoundDiv(a, b) >= 0
  {
    if a >= 0 {
      RoundDivNonNegative(a, b);
    }
  }

  function SeatKeysOf(ps: seq<Party>): (r: seq<real>)
    ensures |r| == |ps|
  {
    seq(|ps|, i requires 0 <= i < |ps| => ps[i].seats as real)
  }

  /** The parties' positions in the summary: by final seats, larger first, ties in key order. */
  function FinalOrder(ps: seq<Party>): (r: seq<nat>)
    ensures multiset(r) == multiset(Range(|ps|)) && |r| == |ps|
    ensures InBounds(SeatKeysOf(ps), r) && Sorted(SeatKeysOf(ps), r)
  {
    assert Distinct(Range(|ps|));
    SortDesc(SeatKeysOf(ps), Range(|ps|))
  }

  function FinalPartyOf(keys: seq<string>, ps: seq<Party>, i: nat): FinalParty
    requires |keys| == |ps| && i < |ps|
  {
    FinalParty(keys[i], ps[i].votes, ps[i].seats, VotesPerSeat(ps[i]))
  }

  /** `summary.finalParties`: every party's record, sorted by final seats with the larger first. */
  function FinalParties(keys: seq<string>, ps: seq<Party>): (r: seq<FinalParty>)
    requires |keys| == |ps|
    ensures |r| == |ps|
  {
    var order := FinalOrder(ps);
    seq(|ps|, k requires 0 <= k < |ps| => FinalPartyOf(keys, ps, order[k]))
  }

  /**
   * The summary lists every party exactly once, sorted by final seats with
   * the larger first and, the sort being stable, ties in key order.
   */
  lemma FinalPartiesSorted(keys: seq<string>, ps: seq<Party>)
    requires |keys| == |ps|
    ensures var r := FinalParties(keys, ps);
      && (forall a, b :: 0 <= a < b < |r| ==> r[a].finalSeats >= r[b].finalSeats)
      && (forall a, b :: 0 <= a < b < |r| && r[a].finalSeats == r[b].finalSeats ==> FinalOrder(ps)[a] < FinalOrder(ps)[b])
      && (forall i :: 0 <= i < |ps| ==> multiset(FinalOrder(ps))[i] == 1)
      && (forall k :: 0 <= k < |r| ==> r[k] == FinalPartyOf(keys, ps, FinalOrder(ps)[k]))
  {
    var order := FinalOrder(ps);
    var key := SeatKeysOf(ps);
    forall a, b | 0 <= a < b < |order| ensures Before(key, order[a], order[b]) {
    }
    forall i | 0 <= i < |ps| ensures multiset(order)[i] == 1 {
      OccursOnce(Range(|ps|), i);
    }
  }

  function SeatsOf(ps: seq<Party>): (r: seq<int>)
    ensures |r| == |ps| && forall i :: 0 <= i < |ps| ==> r[i] == ps[i].seats
  {
    seq(|ps|, i requires 0 <= i < |ps| => ps[i].seats)
  }

  lemma {:induction false} SumSeatsOf(ps: seq<Party>)
    ensures Sum(SeatsOf(ps)) == SeatsFilled(ps)
  {
    if ps != [] {
      SumSeatsOf(ps[..|ps| - 1]);
      assert SeatsOf(ps)[..|ps| - 1] == SeatsOf(ps[..|ps| - 1]);
    }
  }

  // ---------------------------------------------------------------------------
  // The whole allocation

  /** The precondition of the source's assertion: a positive parliament and a rounded initial cost of at least 1. */
  predicate CanAllocate(keys: seq<string>, votes: seq<int>, totalSeats: int)
  {
    |keys| == |votes| && DistinctKeys(keys) && totalSeats > 0 && 2 * Sum(ClampVotes(votes)) >= totalSeats
  }

  function InitialCost(votes: seq<int>, totalSeats: int): (r: int)
    requires totalSeats > 0 && 2 * Sum(ClampVotes(votes)) >= totalSeats
    ensures r >= 1
  {
    ZeroSumNonNegative(ClampVotes(votes));
    InitialCostPositive(Sum(ClampVotes(votes)), totalSeats);
    RoundDiv(Sum(ClampVotes(votes)), totalSeats)
  }

  lemma {:induction false} ZeroSumNonNegative(s: seq<int>)
    requires forall i :: 0 <= i < |s| ==> s[i] >= 0
    ensures Sum(s) >= 0
  {
    if s != [] {
      ZeroSumNonNegative(s[..|s| - 1]);
    }
  }

  /** The records after round 1. */
  function RoundOneParties(votes: seq<int>, totalSeats: int): (r: seq<Party>)
    requires totalSeats > 0 && 2 * Sum(ClampVotes(votes)) >= totalSeats
    ensures |r| == |votes|
  {
    InitialParties(FreshParties(votes), InitialCost(votes, totalSeats))
  }

  /** Round 1's record, before the threshold transfers are added to it. */
  function RoundOne(votes: seq<int>, totalSeats: int, threshold: real): RoundData
    requires totalSeats > 0 && 2 * Sum(ClampVotes(votes)) >= totalSeats
  {
    var grandTotal := Sum(ClampVotes(votes));
    var cost := InitialCost(votes, totalSeats);
    var thresholdVotes := ThresholdVotes(grandTotal, threshold);
    Capture(RoundOneParties(votes, totalSeats), totalSeats, 1, InitialRound)
      .(seatCost := cost, thresholdVotes := Some(thresholdVotes),
        thresholdSeats := Some(Ceil(thresholdVotes / cost as real)), totalVotes := Some(grandTotal))
  }

  /** The threshold step on the round-1 records. */
  function AfterThreshold(keys: seq<string>, votes: seq<int>, totalSeats: int, prefs: map<string, seq<string>>, threshold: real): (r: Step)
    requires CanAllocate(keys, votes, totalSeats)
    ensures |r.ps| == |keys|
  {
    var ps := RoundOneParties(votes, totalSeats);
    ThresholdFrom(keys, ps, prefs, ThresholdVotes(Sum(ClampVotes(votes)), threshold), InitialCost(votes, totalSeats), |ps|)
  }

  /** The state the main loop starts from. */
  function Start(keys: seq<string>, votes: seq<int>, totalSeats: int, prefs: map<string, seq<string>>, threshold: real): (r: Engine)
    requires CanAllocate(keys, votes, totalSeats)
    ensures |r.ps| == |keys|
  {
    var th := AfterThreshold(keys, votes, totalSeats, prefs, threshold);
    Engine(th.ps, [RoundOne(votes, totalSeats, threshold).(transfers := th.transfers)], 1, false)
  }

  /** `allocateSeatsFairShareTransfersWithSteps(votesByParty, totalSeats, prefs, threshold)` without the step strings. */
  function Allocate(keys: seq<string>, votes: seq<int>, totalSeats: int, prefs: map<string, seq<string>>, threshold: real): (r: AllocationResult)
    requires CanAllocate(keys, votes, totalSeats)
    ensures |r.seats| == |keys|
  {
    var e := Run(keys, prefs, totalSeats, Start(keys, votes, totalSeats, prefs, threshold));
    var grandTotal := Sum(ClampVotes(votes));
    AllocationResult(SeatsOf(e.ps), e.rounds,
      Summary(grandTotal, totalSeats, threshold, ThresholdVotes(grandTotal, threshold),
              InitialCost(votes, totalSeats), FinalParties(keys, e.ps)))
  }

  /**
   * Round 1 splits every party's clamped votes into whole seats at the
   * initial cost and an unspent remainder below the cost, finalizing no one.
   */
  lemma RoundOneSplit(votes: seq<int>, totalSeats: int)
    requires totalSeats > 0 && 2 * Sum(ClampVotes(votes)) >= totalSeats
    ensures var ps := RoundOneParties(votes, totalSeats);
      var cost := InitialCost(votes, totalSeats);
      forall i :: 0 <= i < |ps| ==>
        && ps[i].votes == ClampVotes(votes)[i] && !ps[i].finalized
        && ps[i].seats >= 0 && ps[i].seats * cost + ps[i].unspent == ps[i].votes
        && 0 <= ps[i].unspent < cost
  {
    var cost := InitialCost(votes, totalSeats);
    var ps0 := FreshParties(votes);
    forall i | 0 <= i < |ps0| {
      InitialSplit(ps0[i], cost);
    }
  }

  /** The main loop starts from a well-formed state in which the threshold step has done its work. */
  lemma StartFacts(keys: seq<string>, votes: seq<int>, totalSeats: int, prefs: map<string, seq<string>>, threshold: real)
    requires CanAllocate(keys, votes, totalSeats)
    ensures var e := Start(keys, votes, totalSeats, prefs, threshold);
      && EngineOk(e)
      && ThresholdDone(RoundOneParties(votes, totalSeats), e.ps, ThresholdVotes(Sum(ClampVotes(votes)), threshold), |keys|)
  {
    var ps := RoundOneParties(votes, totalSeats);
    RoundOneSplit(votes, totalSeats);
    ThresholdResult(keys, ps, prefs, ThresholdVotes(Sum(ClampVotes(votes)), threshold), InitialCost(votes, totalSeats), |ps|);
  }

  /** A party whose votes fall short of the threshold ends with no seats. */
  lemma AllocateBelowThreshold(keys: seq<string>, votes: seq<int>, totalSeats: int, prefs: map<string, seq<string>>,
                               threshold: real, i: nat)
    requires CanAllocate(keys, votes, totalSeats) && i < |keys|
    requires (ClampVotes(votes)[i] as real) < ThresholdVotes(Sum(ClampVotes(votes)), threshold)
    ensures Allocate(keys, votes, totalSeats, prefs, threshold).seats[i] == 0
  {
    var e := Start(keys, votes, totalSeats, prefs, threshold);
    StartFacts(keys, votes, totalSeats, prefs, threshold);
    RoundOneSplit(votes, totalSeats);
    RunFacts(keys, prefs, totalSeats, e);
  }

  /**
   * When round 1 does not overfill the parliament, neither does the whole
   * allocation: the seats add up to at most the total.
   */
  lemma AllocateNoOverfill(keys: seq<string>, votes: seq<int>, totalSeats: int, prefs: map<string, seq<string>>, threshold: real)
    requires CanAllocate(keys, votes, totalSeats)
    requires SeatsFilled(RoundOneParties(votes, totalSeats)) <= totalSeats
    ensures Sum(Allocate(keys, votes, totalSeats, prefs, threshold).seats) <= totalSeats
  {
    var e := Start(keys, votes, totalSeats, prefs, threshold);
    StartFacts(keys, votes, totalSeats, prefs, threshold);
    RoundOneSplit(votes, totalSeats);
    SeatsFilledMonotone(RoundOneParties(votes, totalSeats), e.ps);
    RunFacts(keys, prefs, totalSeats, e);
    SumSeatsOf(Run(keys, prefs, totalSeats, e).ps);
  }

  /**
   * The round record starts with the initial round and numbers the rounds
   * 1, 2, 3, ... with every later round an allocation round; the loop's
   * bound keeps it to 100 rounds, and since every round that goes on
   * finalizes a party, it has at most two more rounds than there are parties.
   */
  lemma AllocateRounds(keys: seq<string>, votes: seq<int>, totalSeats: int, prefs: map<string, seq<string>>, threshold: real)
    requires CanAllocate(keys, votes, totalSeats)
    ensures var rounds := Allocate(keys, votes, totalSeats, prefs, threshold).rounds;
      && 1 <= |rounds| <= 100
      && |rounds| <= |keys| + 2
      && rounds[0] == RoundOne(votes, totalSeats, threshold).(transfers := AfterThreshold(keys, votes, totalSeats, prefs, threshold).transfers)
      && forall j :: 0 <= j < |rounds| ==> rounds[j].number == j + 1 && (rounds[j].kind == InitialRound <==> j == 0)
  {
    var e := Start(keys, votes, totalSeats, prefs, threshold);
    StartFacts(keys, votes, totalSeats, prefs, threshold);
    RunFacts(keys, prefs, totalSeats, e);
    var r := Run(keys, prefs, totalSeats, e);
    assert r.rounds[0] == r.rounds[..1][0];
  }

  /**
   * Round 1's record: its cost is at least 1; every party's seats at that
   * cost plus its unspent votes make up its votes, with less than the cost
   * left unspent; and the threshold in seats is the threshold in votes over
   * the cost, rounded up.
   */
  lemma AllocateInitialRound(votes: seq<int>, totalSeats: int, threshold: real)
    requires totalSeats > 0 && 2 * Sum(ClampVotes(votes)) >= totalSeats
    ensures var r := RoundOne(votes, totalSeats, threshold);
      && r.number == 1 && r.kind == InitialRound
      && r.seatCost >= 1 && |r.parties| == |votes|
      && (forall i :: 0 <= i < |votes| ==>
            r.parties[i].seats * r.seatCost + r.parties[i].unspent == ClampVotes(votes)[i] &&
            0 <= r.parties[i].unspent < r.seatCost)
      && r.thresholdVotes.Some? && r.thresholdSeats.Some?
      && r.thresholdVotes.value <= r.thresholdSeats.value as real * r.seatCost as real
      && r.totalVotes == Some(Sum(ClampVotes(votes)))
  {
    RoundOneSplit(votes, totalSeats);
    RoundOneThresholdSeats(votes, totalSeats, threshold);
  }

  /** The threshold seats of round 1, priced at the initial cost, cover the threshold votes. */
  lemma RoundOneThresholdSeats(votes: seq<int>, totalSeats: int, threshold: real)
    requires totalSeats > 0 && 2 * Sum(ClampVotes(votes)) >= totalSeats
    ensures var r := RoundOne(votes, totalSeats, threshold);
      && r.thresholdVotes.Some? && r.thresholdSeats.Some?
      && r.thresholdVotes.value <= r.thresholdSeats.value as real * r.seatCost as real
  {
    CeilCovers(ThresholdVotes(Sum(ClampVotes(votes)), threshold), InitialCost(votes, totalSeats));
  }

  /** Rounding x / cost up gives a whole number of seats whose price covers x. */
  lemma CeilCovers(x: real, cost: int)
    requires cost >= 1
    ensures x <= Ceil(x / cost as real) as real * cost as real
  {
    var q := x / cost as real;
    var c := Ceil(q) as real;
    assert q <= c;
    assert q * cost as real <= c * cost as real;
    assert q * cost as real == x;
  }

  // ---------------------------------------------------------------------------
  // The allocator, step by step

  /**
   * `allocateSeatsFairShareTransfersWithSteps`: copy the clamped votes, make
   * the initial allocation, apply the threshold, run the main rounds and
   * summarise. It requires what the source's assertion demands of the
   * initial cost.
   */
  method AllocateSeatsFairShareTransfersWithSteps(keys: seq<string>, votes: seq<int>, totalSeats: int,
                                                  prefs: map<string, seq<string>>, threshold: real)
    returns (result: AllocationResult)
    requires CanAllocate(keys, votes, totalSeats)
    ensures result == Allocate(keys, votes, totalSeats, prefs, threshold)
  {
    var ps, grandTotal := InitParties(votes);
    var thresholdVotes := if threshold > 0.0 then grandTotal as real * threshold else 0.0;
    var initialCost := RoundDiv(grandTotal, totalSeats);
    assert initialCost == InitialCost(votes, totalSeats);
    var thresholdSeats := Ceil(thresholdVotes / initialCost as real);
    ps := InitialAllocation(ps, initialCost);
    var initialRound := Capture(ps, totalSeats, 1, InitialRound)
      .(seatCost := initialCost, thresholdVotes := Some(thresholdVotes),
        thresholdSeats := Some(thresholdSeats), totalVotes := Some(grandTotal));
    var transfers;
    ps, transfers := ApplyThreshold(keys, ps, prefs, thresholdVotes, initialCost);
    var e := RunRounds(keys, prefs, totalSeats, Engine(ps, [initialRound.(transfers := transfers)], 1, false));
    result := AllocationResult(SeatsOf(e.ps), e.rounds,
      Summary(grandTotal, totalSeats, threshold, thresholdVotes, initialCost, FinalParties(keys, e.ps)));
  }

  /** The deep copy of the votes: one fresh record per key, and the grand total of the clamped votes. */
  method InitParties(votes: seq<int>) returns (ps: seq<Party>, grandTotal: int)
    ensures ps == FreshParties(votes)
    ensures grandTotal == Sum(ClampVotes(votes))
  {
    ps := [];
    grandTotal := 0;
    for i := 0 to |votes|
      invariant |ps| == i && forall j :: 0 <= j < i ==> ps[j] == PartyState(Max(0, votes[j]), 0, 0, false)
      invariant grandTotal == Sum(ClampVotes(votes)[..i])
    {
      var v := Max(0, votes[i]);
      ps := ps + [PartyState(v, 0, 0, false)];
      assert ClampVotes(votes)[..i + 1][..i] == ClampVotes(votes)[..i];
      grandTotal := grandTotal + v;
    }
    assert ClampVotes(votes)[..|votes|] == ClampVotes(votes);
  }

  /** Round 1: `p.seats = Math.floor(p.votes / initialCost)` and the rest unspent, for every party. */
  method InitialAllocation(ps0: seq<Party>, cost: int) returns (ps: seq<Party>)
    requires cost > 0
    ensures ps == InitialParties(ps0, cost)
  {
    ps := ps0;
    for i := 0 to |ps0|
      invariant |ps| == |ps0|
      invariant forall j :: 0 <= j < i ==> ps[j] == InitialParty(ps0[j], cost)
      invariant forall j :: i <= j < |ps| ==> ps[j] == ps0[j]
    {
      var seats := ps[i].votes / cost;
      ps := ps[i := ps[i].(seats := seats, unspent := ps[i].votes - seats * cost)];
    }
  }

  /**
   * The threshold step: each party whose votes were below the threshold
   * gives back its seats, passes its votes to its first live preference and
   * is finalized, in key order.
   */
  method ApplyThreshold(keys: seq<string>, ps0: seq<Party>, prefs: map<string, seq<string>>, thresholdVotes: real, cost: int)
    returns (ps: seq<Party>, transfers: seq<Transfer>)
    requires |keys| == |ps0|
    ensures Step(ps, transfers) == ThresholdFrom(keys, ps0, prefs, thresholdVotes, cost, |ps0|)
  {
    ps := ps0;
    transfers := [];
    for k := 0 to |ps0|
      invariant Step(ps, transfers) == ThresholdFrom(keys, ps0, prefs, thresholdVotes, cost, k)
    {
      if (ps0[k].votes as real) < thresholdVotes {
        var moved;
        ps, moved := ThresholdParty(keys, ps, prefs, cost, k);
        transfers := transfers + moved;
      }
    }
  }

  /** One below-threshold party: give back its seats, pass on its votes, finalize it. */
  method ThresholdParty(keys: seq<string>, ps0: seq<Party>, prefs: map<string, seq<string>>, cost: int, k: nat)
    returns (ps: seq<Party>, transfers: seq<Transfer>)
    requires |keys| == |ps0| && k < |ps0|
    ensures Step(ps, transfers) == ThresholdOne(keys, ps0, prefs, cost, k)
  {
    ps := ps0;
    transfers := [];
    var p := ps[k];
    if p.seats > 0 {
      ps := ps[k := p.(unspent := p.unspent + p.seats * cost, seats := 0)];
    }
    var target := TransferTarget(keys, ps, prefs, k);
    if target.Some? {
      var t := target.value;
      ps := ps[t := ps[t].(unspent := ps[t].unspent + p.votes)];
      transfers := [Transfer(keys[k], keys[t], p.votes, BelowThreshold)];
    }
    ps := ps[k := ps[k].(unspent := 0, finalized := true)];
  }

  /** The main loop: rounds until the parliament is full, a round breaks off, or the 100th round. */
  method RunRounds(keys: seq<string>, prefs: map<string, seq<string>>, totalSeats: int, e0: Engine) returns (e: Engine)
    requires |keys| == |e0.ps|
    ensures e == Run(keys, prefs, totalSeats, e0)
  {
    e := e0;
    while !e.stopped && SeatsFilled(e.ps) < totalSeats && e.roundNumber < 100
      invariant |e.ps| == |keys|
      invariant Run(keys, prefs, totalSeats, e) == Run(keys, prefs, totalSeats, e0)
      decreases 100 - e.roundNumber
    {
      e := PlayRound(keys, prefs, totalSeats, e);
    }
  }

  /** One main round: the new cost, the awards, then a break or the finalization of the weakest party. */
  method PlayRound(keys: seq<string>, prefs: map<string, seq<string>>, totalSeats: int, e: Engine) returns (r: Engine)
    requires |keys| == |e.ps| && SeatsFilled(e.ps) < totalSeats
    ensures r == Round(keys, prefs, totalSeats, e)
  {
    var number := e.roundNumber + 1;
    var data := Capture(e.ps, totalSeats, number, AllocationRound);
    var cost := RoundDiv(TotalUnspent(e.ps), totalSeats - SeatsFilled(e.ps));
    if cost <= 0 {
      return e.(roundNumber := number, stopped := true);
    }
    var ps, awarded, awards := AwardSeats(keys, e.ps, totalSeats, cost);
    data := data.(seatCost := cost, seatsAllocated := awarded, seatAwards := Some(awards));
    r := FinishRound(keys, prefs, totalSeats, e.rounds, number, data, ps);
  }

  /** After the awards: break off when full or with no active party, else finalize the weakest party. */
  method FinishRound(keys: seq<string>, prefs: map<string, seq<string>>, totalSeats: int,
                     rounds: seq<RoundData>, number: int, data: RoundData, ps0: seq<Party>) returns (r: Engine)
    requires |keys| == |ps0|
    ensures r == Conclude(keys, prefs, totalSeats, rounds, number, data, ps0)
  {
    var ps := ps0;
    if SeatsFilled(ps) >= totalSeats {
      return Engine(ps, rounds + [data], number, true);
    }
    var loser := Weakest(ps, |ps|);
    if loser.None? {
      return Engine(ps, rounds + [data], number, true);
    }
    var w := loser.value;
    var target := TransferTarget(keys, ps, prefs, w);
    var transfers := [];
    if ps[w].unspent > 0 && target.Some? {
      var t := target.value;
      ps := ps[t := ps[t].(unspent := ps[t].unspent + ps[w].unspent)];
      transfers := [Transfer(keys[w], keys[t], ps[w].unspent, FinalizedParty)];
    }
    ps := ps[w := ps[w].(unspent := 0, finalized := true)];
    r := Engine(ps, rounds + [data.(parties := Snapshot(ps), transfers := transfers)], number, false);
  }

  /** The award pass: every active party buys the seats its unspent votes pay for, within the double-counted remainder. */
  method AwardSeats(keys: seq<string>, ps0: seq<Party>, totalSeats: int, cost: int)
    returns (ps: seq<Party>, awarded: int, awards: seq<SeatAward>)
    requires |keys| == |ps0| && cost > 0
    ensures AwardState(ps, awarded, awards) == AwardFrom(keys, ps0, totalSeats, cost, |ps0|)
  {
    ps, awarded, awards := ps0, 0, [];
    for i := 0 to |ps0|
      invariant AwardState(ps, awarded, awards) == AwardFrom(keys, ps0, totalSeats, cost, i)
    {
      if !ps[i].finalized {
        var extra := ps[i].unspent / cost;
        if extra > 0 {
          var take := Min(extra, (totalSeats - SeatsFilled(ps)) - awarded);
          ps := ps[i := Buy(ps[i], take, cost)];
          awarded := awarded + take;
          if take > 0 {
            awards := awards + [SeatAward(keys[i], take)];
          }
        }
      }
    }
  }
}
