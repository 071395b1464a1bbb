/**
 * The deterministic part of `simulateElections` (js/seat-allocation.js): for
 * each district, sample the votes from its shares, add them to the national
 * totals and give the district's one seat to its plurality winner. The
 * district shares, which the source draws at random, are an input.
 */
module Districts {
  import opened Base
  import opened LargestRemainder

  // ---------------------------------------------------------------------------
  // The plurality winner of one district

  /**
   * The state `(max, winner)` of the winner scan after the first n
   * candidates: it starts at (-1, candidate 0) and moves to a candidate only
   * when its votes are strictly greater than the current maximum.
   */
  function Scan(votes: seq<int>, n: nat): (r: (int, nat))
    requires n <= |votes|
    ensures forall c :: 0 <= c < n ==> votes[c] <= r.0
  {
    if n == 0 then (-1, 0)
    else
      var prev := Scan(votes, n - 1);
      if votes[n - 1] > prev.0 then (votes[n - 1], n - 1) else prev
  }

  /** The candidate that wins the district's seat. */
  function Winner(votes: seq<int>): (w: nat)
    requires |votes| > 0
    ensures w < |votes|
  {
    ScanFacts(votes, |votes|);
    Scan(votes, |votes|).1
  }

  /**
   * `w` is the first candidate with the greatest votes, when some candidate
   * has at least 0 votes; with every count negative the seat stays with the
   * first candidate.
   */
  predicate IsFirstMax(votes: seq<int>, w: nat)
  {
    && w < |votes|
    && ((exists c :: 0 <= c < |votes| && votes[c] >= 0) ==>
         && (forall c :: 0 <= c < |votes| ==> votes[c] <= votes[w])
         && (forall c :: 0 <= c < w ==> votes[c] < votes[w]))
    && ((forall c :: 0 <= c < |votes| ==> votes[c] < 0) ==> w == 0)
  }

  /** What the scan keeps after n candidates: the maximum (or -1) and its first holder. */
  lemma {:induction false} ScanFacts(votes: seq<int>, n: nat)
    requires n <= |votes|
    ensures var r := Scan(votes, n);
      && r.0 >= -1
      && (n == 0 ==> r.1 == 0)
      && (n > 0 ==> r.1 < n)
      && (forall c :: 0 <= c < n ==> votes[c] <= r.0)
      && (forall c :: 0 <= c < r.1 ==> votes[c] < r.0)
      && (r.0 == -1 ==> r.1 == 0)
      && (r.0 != -1 ==> votes[r.1] == r.0)
  {
    if n > 0 {
      ScanFacts(votes, n - 1);
    }
  }

  /** The scan picks the first candidate with the most votes. */
  lemma WinnerIsFirstMax(votes: seq<int>)
    requires |votes| > 0
    ensures IsFirstMax(votes, Winner(votes))
  {
    ScanFacts(votes, |votes|);
  }

  /** A district has exactly one first maximum: the winner is determined by the votes alone. */
  lemma FirstMaxUnique(votes: seq<int>, w: nat, v: nat)
    requires IsFirstMax(votes, w) && IsFirstMax(votes, v)
    ensures w == v
  {
  }

  /**
   * The `candidates.forEach` scan: `winner` starts at the first candidate and
   * `max` at -1, and a candidate with strictly more votes than `max` takes over.
   */
  method DistrictWinner(votes: seq<int>) returns (winner: nat)
    requires |votes| > 0
    ensures winner == Winner(votes)
    ensures IsFirstMax(votes, winner)
  {
    winner := 0;
    var max := -1;
    for c := 0 to |votes|
      invariant (max, winner) == Scan(votes, c)
    {
      if votes[c] > max {
        max := votes[c];
        winner := c;
      }
    }
    WinnerIsFirstMax(votes);
  }

  // ---------------------------------------------------------------------------
  // The national tallies

  /** The votes of every district, as sampled from its shares. */
  function AllDistrictVotes(shares: seq<seq<real>>, voters: int): (rows: seq<seq<int>>)
    requires WellShaped(shares)
    ensures |rows| == |shares| && Rows(rows)
  {
    seq(|shares|, d requires 0 <= d < |shares| => SampledVotes(shares[d], voters))
  }

  /** One vote count per candidate in every district. */
  predicate Rows(rows: seq<seq<int>>)
  {
    forall d :: 0 <= d < |rows| ==> |rows[d]| == |Candidates|
  }

  predicate WellShaped(shares: seq<seq<real>>)
  {
    forall d :: 0 <= d < |shares| ==> |shares[d]| == |Candidates|
  }

  /** The national vote totals after the first n districts. */
  function NationalVotes(rows: seq<seq<int>>, n: nat): (r: seq<int>)
    requires n <= |rows| && Rows(rows)
    ensures |r| == |Candidates|
  {
    if n == 0 then Zeros(|Candidates|)
    else AddSeq(NationalVotes(rows, n - 1), rows[n - 1])
  }

  /** The FPTP seat tally after the first n districts. */
  function FptpSeats(rows: seq<seq<int>>, n: nat): (r: seq<int>)
    requires n <= |rows| && Rows(rows)
    ensures |r| == |Candidates|
  {
    if n == 0 then Zeros(|Candidates|)
    else
      var prev := FptpSeats(rows, n - 1);
      var w := Winner(rows[n - 1]);
      prev[w := prev[w] + 1]
  }

  /** Each district awards exactly one seat: the tally adds up to the number of districts and never goes negative. */
  lemma {:induction false} FptpSeatsSum(rows: seq<seq<int>>, n: nat)
    requires n <= |rows| && Rows(rows)
    ensures Sum(FptpSeats(rows, n)) == n
    ensures forall c :: 0 <= c < |Candidates| ==> 0 <= FptpSeats(rows, n)[c] <= n
  {
    if n == 0 {
      ZeroSum(Zeros(|Candidates|));
    } else {
      FptpSeatsSum(rows, n - 1);
      var prev := FptpSeats(rows, n - 1);
      var w := Winner(rows[n - 1]);
      SumUpdate(prev, w, prev[w] + 1);
    }
  }

  /** National totals are the district votes added up: their sum is the sum of the district sums. */
  lemma {:induction false} NationalVotesSum(rows: seq<seq<int>>, n: nat, voters: int)
    requires n <= |rows| && Rows(rows)
    requires forall d :: 0 <= d < |rows| ==> Sum(rows[d]) == voters
    ensures Sum(NationalVotes(rows, n)) == n * voters
  {
    if n == 0 {
      ZeroSum(Zeros(|Candidates|));
    } else {
      NationalVotesSum(rows, n - 1, voters);
      SumAdd(NationalVotes(rows, n - 1), rows[n - 1]);
    }
  }

  /** Every district with shares adding up to 1 casts exactly `voters` votes. */
  lemma RowSums(shares: seq<seq<real>>, voters: int)
    requires WellShaped(shares)
    requires forall d :: 0 <= d < |shares| ==> SumReal(shares[d]) == 1.0
    ensures forall d :: 0 <= d < |shares| ==> Sum(AllDistrictVotes(shares, voters)[d]) == voters
  {
    forall d | 0 <= d < |shares| ensures Sum(AllDistrictVotes(shares, voters)[d]) == voters {
      SampleVotesExact(shares[d], voters, 0);
    }
  }

  /**
   * `simulateElections(numDistricts, votersPerDistrict)` with the district
   * shares given: national vote totals and FPTP seats per candidate, in the
   * order of Candidates. Every district awards exactly one seat.
   */
  method SimulateElections(districtShares: seq<seq<real>>, votersPerDistrict: int)
    returns (totalVotes: seq<int>, fptpSeats: seq<int>)
    requires WellShaped(districtShares)
    ensures totalVotes == NationalVotes(AllDistrictVotes(districtShares, votersPerDistrict), |districtShares|)
    ensures fptpSeats == FptpSeats(AllDistrictVotes(districtShares, votersPerDistrict), |districtShares|)
    ensures Sum(fptpSeats) == |districtShares|
  {
    var rows := SampleDistricts(districtShares, votersPerDistrict);
    totalVotes, fptpSeats := TallyDistricts(rows);
    FptpSeatsSum(rows, |rows|);
  }

  /** `sampleVotesFromShares` for each district in turn. */
  method SampleDistricts(districtShares: seq<seq<real>>, votersPerDistrict: int) returns (rows: seq<seq<int>>)
    requires WellShaped(districtShares)
    ensures rows == AllDistrictVotes(districtShares, votersPerDistrict)
  {
    rows := [];
    for d := 0 to |districtShares|
      invariant |rows| == d
      invariant forall e :: 0 <= e < d ==> rows[e] == SampledVotes(districtShares[e], votersPerDistrict)
    {
      var votes := SampleVotesFromShares(districtShares[d], votersPerDistrict);
      rows := rows + [votes];
    }
  }

  /** The `for (let d = 0; ...)` tally: every district's votes into the totals, its winner's seat into the seats. */
  method TallyDistricts(rows: seq<seq<int>>) returns (totalVotes: seq<int>, fptpSeats: seq<int>)
    requires Rows(rows)
    ensures totalVotes == NationalVotes(rows, |rows|)
    ensures fptpSeats == FptpSeats(rows, |rows|)
  {
    totalVotes := Zeros(|Candidates|);
    fptpSeats := Zeros(|Candidates|);
    for d := 0 to |rows|
      invariant totalVotes == NationalVotes(rows, d)
      invariant fptpSeats == FptpSeats(rows, d)
    {
      totalVotes, fptpSeats := TallyDistrict(totalVotes, fptpSeats, rows[d]);
    }
  }

  /** One district's contribution: its votes join the national totals and its winner gains a seat. */
  method TallyDistrict(totalVotes: seq<int>, fptpSeats: seq<int>, votes: seq<int>)
    returns (totals: seq<int>, seats: seq<int>)
    requires |totalVotes| == |fptpSeats| == |votes| > 0
    ensures totals == AddSeq(totalVotes, votes)
    ensures seats == fptpSeats[Winner(votes) := fptpSeats[Winner(votes)] + 1]
  {
    totals := AddVotes(totalVotes, votes);
    var winner := DistrictWinner(votes);
    seats := fptpSeats[winner := fptpSeats[winner] + 1];
  }

  /** `candidates.forEach(c => { totalVotes[c.key] += votes[c.key]; })`. */
  method AddVotes(totals: seq<int>, votes: seq<int>) returns (r: seq<int>)
    requires |totals| == |votes|
    ensures r == AddSeq(totals, votes)
  {
    r := totals;
    for c := 0 to |votes|
      invariant |r| == |totals|
      invariant forall j :: 0 <= j < c ==> r[j] == totals[j] + votes[j]
      invariant forall j :: c <= j < |r| ==> r[j] == totals[j]
    {
      r := r[c := r[c] + votes[c]];
    }
  }
}
