# proportional.uk seat allocation, modelled in Dafny

proportional.uk compares a first-past-the-post parliament of 650 seats with
proportional alternatives. This project models the computing core of the
site and proves properties of it:

- the **fair-share transfer allocator** `allocateSeatsFairShareTransfersWithSteps`,
  in both versions:
  - the TypeScript one (`src/lib/seat-allocation.ts`), with integer seat costs, its
    round records and its summary — module `FairShare`;
  - the legacy JavaScript one (`js/seat-allocation.js`), with real seat costs and a
    5000-pass guard — module `FairShareLegacy`;
- **D'Hondt** `allocateSeatsFairShare`, identical in both files — module `HighestAverages`;
- the largest-remainder helpers **`sampleVotesFromShares`** and **`scaleSeatsTo650`**
  (`js/utils.js`) — module `LargestRemainder`;
- the deterministic part of **`simulateElections`**: national vote totals and one
  plurality seat per district — module `Districts`;
- **`clamp01`** and **`parseClean`** — module `Utils`;
- **`toChartData`** — module `Charts`.

Shared modules:

- `Base`: sums, `Math.round` and `Math.ceil`.
- `StableSort`: the descending stable sort that `Array.prototype.sort` performs.
  It is an insertion sort over index lists, ordered by a real key; equal keys keep
  their index order.
- `Parties`: party records, clamped votes, the first live transfer preference, and
  the weakest active party.

How the source's data is represented:

- A JavaScript object keyed by party is a sequence of keys, in insertion order, with
  a sequence of values aligned to it.
- A party record is the datatype `PartyState`.
- Each loop that updates records in place is a `method` over a sequence of records.
  It is proved equal to a recursive specification function, and the properties are
  lemmas about those functions.

The specification functions only compute. Their properties are stated by the
lemmas and methods named in the table:

| function | its properties |
|---|---|
| HighestAverages.HighestAveragesSeats | SeatsProperties, SeatsSum, NonPositiveGetsNone, MoreVotesNoFewerSeats, SeatsAtLeast |
| LargestRemainder.RoundRobin, Apportion, ScaledSeats | RoundRobinSum, RoundRobinOnce, ApportionSum, ApportionExact, ApportionNear, ScaleSeatsTo650, ScaleToActualTotal |
| Districts.NationalVotes, FptpSeats | NationalVotesSum, FptpSeatsSum, SimulateElections |
| Utils.DecimalValue | LeadingZero, DecimalRoundTrip, ParseCleanDecimal |
| Parties.SeatsFilled | SeatsFilledNonNegative, SeatsFilledMonotone, SeatsFilledUpdate |
| FairShare.ThresholdOne, ThresholdFrom | ThresholdOneEffect, ThresholdResult, ThresholdStep |
| FairShare.AwardOne, AwardFrom | AwardStep, AwardBounds |
| FairShare.FinalizeOne | FinalizeOneEffect, FinalizeMoves, FinalizeKeeps, FinalizeKeepsInvariants |
| FairShare.Round, Conclude, Run | RoundStep, ConcludeStep, RunFacts |
| FairShare.FinalParties, Allocate | FinalPartiesSorted, AllocateRounds, AllocateInitialRound, AllocateNoOverfill, AllocateBelowThreshold |
| FairShareLegacy.ThresholdOne, ThresholdFrom | ThresholdOneEffect, ThresholdResult, ThresholdStep |
| FairShareLegacy.AwardOne, AwardFrom | AwardStep, AwardBounds |
| FairShareLegacy.FinalizeOne | FinalizeOneEffect, FinalizeKeeps |
| FairShareLegacy.Round, Run | RoundKeeps, FinalizesOnlyWhenIdle, RunKeeps |
| FairShareLegacy.Allocate | AllocateNoOverfill, AllocateBelowThreshold |

Behaviour kept exactly as the source has it:

- In a main round, the per-party cap is `remainingSeats() - seatsAwardedThisRound`.
  `remainingSeats()` already counts the seats given this round, so the round's
  seats are subtracted twice. The cap can become negative, and a later party then
  loses seats (`FairShare.AwardCanRevokeSeats`, `FairShareLegacy` alike).
- Round 1 of the TypeScript allocator can seat more than `totalSeats` when
  `Math.round(grandTotal / totalSeats)` rounds down
  (`FairShare.InitialRoundCanOverfill`).
- Votes sent by a below-threshold party to a party still waiting for its own
  threshold step are lost when that party is processed
  (`FairShare.ThresholdLosesChainedVotes`).
- An empty-string preference key is falsy for `if (target)`, so no transfer happens.

## Model

| member | source | states |
|---|---|---|
| Base.RoundDiv | src/lib/seat-allocation.ts:204 | the integer formula equals `Math.round` (round half up) of the exact quotient |
| Base.Ceil | src/lib/seat-allocation.ts:207 | `Math.ceil`: the least integer not below x |
| StableSort.SortDesc | src/lib/seat-allocation.ts:95 | the result is a permutation of the input, ordered by descending key, with equal keys in their original order |
| StableSort.PrefixClosed | src/lib/seat-allocation.ts:95 | in a sorted list, every entry that sorts before a member of a prefix is in that prefix |
| HighestAverages.AllocateSeatsFairShare | src/lib/seat-allocation.ts:81-104 | the method's result equals the D'Hondt specification; seats sum to totalSeats; a party without positive votes gets none; more votes never means fewer seats |
| HighestAverages.PushQuotients | src/lib/seat-allocation.ts:85-93 | the loop builds, for each party with positive votes in key order, the quotients v/1 … v/totalSeats |
| HighestAverages.TallyTop | src/lib/seat-allocation.ts:96-101 | the loop counts, per party, the quotients among the first n of the sorted list |
| HighestAverages.SeatsProperties | js/seat-allocation.js:19-40 | seats sum to n, parties with no positive votes get none, and seats are monotone in votes |
| HighestAverages.SeatsSum | src/lib/seat-allocation.ts:99-101 | exactly n seats are handed out |
| HighestAverages.NonPositiveGetsNone | src/lib/seat-allocation.ts:88 | a party with votes ≤ 0 contributes no quotient and gets 0 seats |
| HighestAverages.MoreVotesNoFewerSeats | src/lib/seat-allocation.ts:81-104 | a party with strictly more votes gets at least as many seats |
| HighestAverages.SeatsAtLeast | src/lib/seat-allocation.ts:95-101 | quotient v/d of a party is among the top n exactly when the party gets at least d seats |
| HighestAverages.TopClosed | src/lib/seat-allocation.ts:95 | every quotient that sorts before a winning quotient also wins |
| HighestAverages.RankPrefix | src/lib/seat-allocation.ts:95-101 | each prefix of the ranking holds exactly a party's first c divisors, c being its count in the prefix |
| HighestAverages.CountBound | src/lib/seat-allocation.ts:99-101 | no party gets more than n seats |
| HighestAverages.ExampleHundredFifty | js/seat-allocation.js:19-40 | votes 100 and 50 with 3 seats give seats 2 and 1 |
| Utils.Clamp01 | js/utils.js:9-11 | the result lies in [0, 1]; it is x inside the range, 0 below it and 1 above it |
| Utils.Clamp01Monotone | src/lib/utils.ts:6-8 | clamping preserves order |
| Utils.Clamp01Idempotent | src/lib/utils.ts:6-8 | clamping twice is clamping once |
| Utils.Digits | js/utils.js:159 | the regular-expression strip keeps only decimal digits |
| Utils.ParseClean | js/utils.js:158-160 | a string with no digit parses to 0 |
| Utils.ParseCleanIgnoresNonDigit | src/lib/utils.ts:32-34 | inserting a non-digit anywhere does not change the parsed value |
| Utils.ParseCleanSeparators | js/utils.js:158-160 | "1,234" and "1.234" both parse to 1234 |
| Utils.ParseCleanDecimal | src/lib/utils.ts:32-34 | parsing the decimal spelling of n gives n back |
| Utils.LeadingZero | src/lib/utils.ts:32-34 | a leading zero digit does not change the parsed value |
| Utils.DecimalRoundTrip | src/lib/utils.ts:32-34 | reading the decimal digits of n gives n back |
| Charts.ColorOf | src/lib/charts.ts:83 | the metadata colour when present and non-empty, otherwise '#888888' |
| Charts.NameOf | js/charts.js:230 | the metadata name when present and non-empty, otherwise the key |
| Charts.PositiveIndices | src/lib/charts.ts:78 | the filter keeps only parties with seats > 0, in key order |
| Charts.PositiveIndicesComplete | js/charts.js:224 | every party with seats > 0 passes the filter |
| Charts.ChartOrder | src/lib/charts.ts:76-79 | the kept parties, permuted, in descending seat order with ties in key order |
| Charts.ToChartData | src/lib/charts.ts:75-86 | one entry per party with seats, every entry positive, entries by non-increasing seats, each with its party's seats, colour and name |
| Charts.ChartOrderFacts | js/charts.js:223-225 | chart order lists only parties with seats, in non-increasing seat order |
| Charts.ChartTiesInKeyOrder | js/charts.js:225 | parties with equal seats keep their key order (the sort is stable) |
| Charts.ChartHasEveryPositive | js/charts.js:222-232 | every party with seats appears in the chart exactly once |
| Charts.ChartKeepsSeats | js/charts.js:222-232 | the chart's seat counts are a permutation of the positive counts and add up to the seats held |
| LargestRemainder.Floors | js/utils.js:90-94 | each entry is the floor of its quota |
| LargestRemainder.FracAt | js/utils.js:97-100 | the fractional part is x − floor(x), in [0, 1) |
| LargestRemainder.RemainderOrderSorted | js/utils.js:101 | the order is a permutation of all entries, by descending fractional part, stable on ties |
| LargestRemainder.RoundRobinSum | js/utils.js:103-105 | k round-robin increments add k in total and never make a count negative |
| LargestRemainder.RoundRobinOnce | js/utils.js:103-105 | with k ≤ number of entries, an entry gains 1 exactly when it is among the first k of the order |
| LargestRemainder.DistributeSum | js/utils.js:137-139 | after the top-up the total is max(target, floors' sum), and no count falls below its floor |
| LargestRemainder.ApportionSum | js/utils.js:89-105 | sampled counts add up to max(target, sum of floors) |
| LargestRemainder.ApportionExact | js/utils.js:89-105 | when the quotas add up to the target, the shortfall is below the entry count, the counts add up to the target, and an entry gets floor + 1 exactly when it is among the shortfall-many largest fractions |
| LargestRemainder.ApportionNear | js/utils.js:89-105 | when the quotas add up to the target, each count is its quota's floor or floor + 1 |
| LargestRemainder.ApportionAtLeastFloor | js/utils.js:130-133 | no count is below its quota's floor |
| LargestRemainder.ExtrasByFraction | js/utils.js:136-139 | an entry with a larger fraction gets its extra unit whenever a smaller one does |
| LargestRemainder.FloorsBound | js/utils.js:89-94 | the sum of floors is at most the sum of quotas and exceeds it minus the number of entries |
| LargestRemainder.SampleVotesFromShares | js/utils.js:76-108 | the method equals the specification; every candidate gets at least floor(share × voters); the total is max(voters, sum of floors) |
| LargestRemainder.SampleVotesExact | js/utils.js:76-108 | for shares summing to 1, the votes add up to voters and each is floor(share × voters) or one more |
| LargestRemainder.QuotasAddUp | js/utils.js:91 | shares summing to 1 give quotas summing to voters |
| LargestRemainder.Fill | js/utils.js:89-105 | the two loops compute the apportionment |
| LargestRemainder.AddFloors | js/utils.js:130-133 | the loop sets each count to its floor and totals them |
| LargestRemainder.AddRoundRobin | js/utils.js:137-139 | the loop performs the round-robin top-up |
| LargestRemainder.ScaleSeatsTo650 | js/utils.js:116-142 | the input is returned unchanged for 650 seats or a zero sum; otherwise each party gets at least floor(seats × 650 / totalSeats), and the total is max(650, sum of floors) |
| LargestRemainder.ScaleToActualTotal | js/utils.js:116-142 | when totalSeats is the actual seat sum, the result adds up to 650 and each party is within one of its exact share |
| LargestRemainder.SeatQuotasAddUp | js/utils.js:125-128 | the exact shares add up to 650 when totalSeats is the seat sum |
| Districts.Scan | js/seat-allocation.js:202-209 | the running maximum is at least every count scanned so far |
| Districts.ScanFacts | js/seat-allocation.js:202-209 | the scan keeps the first candidate holding the running maximum |
| Districts.Winner | js/seat-allocation.js:202-210 | the winner is a candidate index |
| Districts.WinnerIsFirstMax | js/seat-allocation.js:202-210 | the winner has the most votes and is the first such candidate; with all counts negative it is candidate 0 |
| Districts.FirstMaxUnique | js/seat-allocation.js:202-210 | that description fixes one candidate |
| Districts.DistrictWinner | js/seat-allocation.js:202-209 | the scan loop returns the first candidate with the most votes |
| Districts.FptpSeatsSum | js/seat-allocation.js:194-211 | after n districts, n seats are held in total, each candidate between 0 and n |
| Districts.NationalVotesSum | js/seat-allocation.js:199 | if each district casts `voters` votes, the national totals add up to n × voters |
| Districts.RowSums | js/seat-allocation.js:195-196 | districts with shares summing to 1 cast exactly votersPerDistrict votes each |
| Districts.SimulateElections | js/seat-allocation.js:177-214 | national totals and seats equal the specification; the seats add up to the number of districts |
| Districts.SampleDistricts | js/seat-allocation.js:194-196 | the loop samples every district's votes from its shares |
| Districts.TallyDistricts | js/seat-allocation.js:194-211 | the loop adds each district's votes and one seat for its winner |
| Districts.TallyDistrict | js/seat-allocation.js:199-210 | one district adds its votes to the totals and one seat to its winner |
| Districts.AddVotes | js/seat-allocation.js:199 | the totals gain each candidate's district votes |
| Parties.ClampVotes | src/lib/seat-allocation.ts:120 | `Math.max(0, v)`: negative counts become 0, others are kept |
| Parties.IndexOf | src/lib/seat-allocation.ts:236 | `parties[pk]`: the position of the key |
| Parties.FindLive | src/lib/seat-allocation.ts:236 | a found preference is in the list, is a party, and is not finalized |
| Parties.FindLiveFirst | js/seat-allocation.js:112 | `find` gives nothing exactly when no preference is live, and otherwise the first live one |
| Parties.TransferTarget | src/lib/seat-allocation.ts:316-322 | a target is a live, non-empty key from the party's preference list |
| Parties.TransferTargetFirst | src/lib/seat-allocation.ts:236-237 | there is no target exactly when no preference is live or the first live one is the empty key; otherwise it is the first live preference |
| Parties.TransferTargetFinalizedOnly | js/seat-allocation.js:154 | the target depends only on which parties are finalized |
| Parties.Weakest | src/lib/seat-allocation.ts:307-314 | the weakest party is an active party |
| Parties.WeakestIsFirst | js/seat-allocation.js:146-150 | there is none exactly when every party is finalized; otherwise no active party has fewer seats, or equal seats and fewer votes, and ties go to the earlier key |
| Parties.WeakestSame | js/seat-allocation.js:149 | the choice depends only on seats, votes and finalized flags |
| Parties.SeatsFilledNonNegative | src/lib/seat-allocation.ts:140-142 | `seatsFilled()` is non-negative when no party holds negative seats |
| Parties.SeatsFilledMonotone | js/seat-allocation.js:75-77 | `seatsFilled()` never grows when no party gains seats |
| Parties.SeatsFilledUpdate | src/lib/seat-allocation.ts:140-142 | replacing one record changes `seatsFilled()` by the change in that record's seats |
| Parties.FrozenTrans | src/lib/seat-allocation.ts:260-355 | "votes kept and finalized records untouched" composes across steps |
| FairShare.TotalUnspent | src/lib/seat-allocation.ts:144-146 | `totalUnspent()` is non-negative when every record's unspent votes are, and 0 when every party is finalized |
| FairShare.TotalUnspentUpdate | src/lib/seat-allocation.ts:144-146 | replacing one record changes the total by the change in that record's active unspent votes |
| FairShare.Capture | src/lib/seat-allocation.ts:172-197 | a round record with the given number and kind, a snapshot of every party, seats filled plus seats remaining equal to totalSeats, and no transfers, cost or awards yet |
| FairShare.Snapshot | src/lib/seat-allocation.ts:185-194 | each row copies the record, and `currentVotes` is 0 for a finalized party and its unspent votes otherwise |
| FairShare.InitialCostPositive | src/lib/seat-allocation.ts:204 | the initial cost is ≥ 1 exactly when 2 × grandTotal ≥ totalSeats, and 0 otherwise |
| FairShare.InitialSplit | src/lib/seat-allocation.ts:211-214 | round 1 splits each party's votes into seats × cost plus an unspent remainder in [0, cost) |
| FairShare.InitialSeatsBound | src/lib/seat-allocation.ts:211-214 | round-1 seats cost at most the votes cast |
| FairShare.InitialRoundCanOverfill | src/lib/seat-allocation.ts:204-214 | 4 votes for 3 seats cost 1 per seat and give 4 seats |
| FairShare.ThresholdOneEffect | src/lib/seat-allocation.ts:231-253 | a below-threshold party is finalized with no unspent votes; its seats go if it had any; its full votes go to its first live preference, with a transfer record, and nothing else changes |
| FairShare.ThresholdResult | src/lib/seat-allocation.ts:227-254 | after the step, below-threshold parties are finalized with no seats and no votes left, and the others keep their seats, stay active and keep at least their unspent votes |
| FairShare.ThresholdStep | src/lib/seat-allocation.ts:231-254 | one more party of the step keeps that description |
| FairShare.ThresholdLosesChainedVotes | src/lib/seat-allocation.ts:236-253 | votes sent to a party that is itself below threshold are wiped when it is processed |
| FairShare.AwardBounds | src/lib/seat-allocation.ts:272-298 | the awards add `awarded` seats, at most the seats left; votes and flags are kept, unspent stays ≥ 0, and seats × cost + unspent is unchanged for every party |
| FairShare.AwardStep | src/lib/seat-allocation.ts:277-294 | one party's award keeps that description |
| FairShare.TakeKeepsValue | src/lib/seat-allocation.ts:280-282 | buying seats keeps unspent votes non-negative and their value unchanged |
| FairShare.AwardCanRevokeSeats | src/lib/seat-allocation.ts:280 | with the cap subtracted twice, a later party can lose seats |
| FairShare.FinalizeOneEffect | src/lib/seat-allocation.ts:316-335 | finalizing moves the party's unspent votes to its first live preference, with a transfer record, when both exist; otherwise the votes leave the pool |
| FairShare.FinalizeMoves | src/lib/seat-allocation.ts:322-335 | when votes move, the pool of unspent votes is unchanged |
| FairShare.FinalizeKeeps | src/lib/seat-allocation.ts:334-335 | when nothing moves, the pool shrinks by the party's unspent votes |
| FairShare.FinalizeKeepsInvariants | src/lib/seat-allocation.ts:305-336 | finalizing keeps seats and non-negative unspent votes, leaves finalized records untouched and finalizes one more party |
| FairShare.RoundStep | src/lib/seat-allocation.ts:260-355 | a main round never overfills, keeps unspent votes ≥ 0, leaves finalized records untouched, and appends at most one allocation-round record numbered after the last |
| FairShare.ConcludeStep | src/lib/seat-allocation.ts:300-354 | the end of a round records it and keeps the invariants, and a round that goes on finalizes one more party |
| FairShare.RunFacts | src/lib/seat-allocation.ts:260-355 | the main loop never overfills; it records rounds numbered 1, 2, … with only the first initial, and it adds at most one round per active party plus one |
| FairShare.FinalOrder | src/lib/seat-allocation.ts:388 | a permutation of the parties by descending final seats, stable on ties |
| FairShare.FinalPartiesSorted | src/lib/seat-allocation.ts:380-388 | the summary lists every party once, by non-increasing seats, ties in key order, with its votes, seats and rounded votes per seat |
| FairShare.VotesPerSeat | src/lib/seat-allocation.ts:386 | votes per seat is non-negative for a party with seats |
| FairShare.InitialCost | src/lib/seat-allocation.ts:204 | the initial cost is at least 1 under the allocator's precondition |
| FairShare.RoundOneSplit | src/lib/seat-allocation.ts:117-129 | round-1 records hold the clamped votes, are active, and split them exactly as seats × cost + unspent, with unspent below the cost |
| FairShare.StartFacts | src/lib/seat-allocation.ts:199-257 | the engine after round 1 satisfies the loop invariant and the threshold description |
| FairShare.AllocateBelowThreshold | src/lib/seat-allocation.ts:227-254 | a party below the threshold ends with no seats |
| FairShare.AllocateNoOverfill | src/lib/seat-allocation.ts:260-368 | if round 1 does not overfill, the final seats add up to at most totalSeats |
| FairShare.AllocateRounds | src/lib/seat-allocation.ts:257-355 | 1 to 100 rounds, at most parties + 2; the first is the initial round with the threshold transfers; rounds are numbered 1, 2, … |
| FairShare.AllocateInitialRound | src/lib/seat-allocation.ts:204-221 | the initial round's record: number 1, cost ≥ 1, the exact vote split per party, thresholdSeats × cost ≥ thresholdVotes, and the grand total |
| FairShare.RoundOneThresholdSeats | src/lib/seat-allocation.ts:207 | `Math.ceil(thresholdVotes / cost)` seats cost at least the threshold |
| FairShare.AllocateSeatsFairShareTransfersWithSteps | src/lib/seat-allocation.ts:109-391 | the method's seats, rounds and summary equal the specification `Allocate` |
| FairShare.InitParties | src/lib/seat-allocation.ts:117-129 | the copy loop makes fresh records of the clamped votes and sums them |
| FairShare.InitialAllocation | src/lib/seat-allocation.ts:211-214 | the loop performs the round-1 split of every party |
| FairShare.ApplyThreshold | src/lib/seat-allocation.ts:227-254 | the loop performs the threshold step |
| FairShare.ThresholdParty | src/lib/seat-allocation.ts:231-253 | one below-threshold party, updated in place |
| FairShare.RunRounds | src/lib/seat-allocation.ts:260-355 | the while loop performs the main rounds |
| FairShare.PlayRound | src/lib/seat-allocation.ts:261-303 | one main round |
| FairShare.FinishRound | src/lib/seat-allocation.ts:300-354 | the end of one main round |
| FairShare.AwardSeats | src/lib/seat-allocation.ts:272-298 | the award loop over active parties |
| FairShareLegacy.InitialCost | js/seat-allocation.js:80 | the initial cost is positive when some party has votes |
| FairShareLegacy.InitialSplit | js/seat-allocation.js:81-84 | each party's seats cost at most its votes, and the remainder is in [0, cost) |
| FairShareLegacy.InitialNoOverfill | js/seat-allocation.js:80-84 | with the exact cost grandTotal / totalSeats, round 1 never overfills |
| FairShareLegacy.ThresholdResult | js/seat-allocation.js:103-119 | below-threshold parties end finalized with no seats and nothing unspent; every other party keeps its seats, stays active, and holds its round-1 unspent votes plus the full votes of each below-threshold party whose first live preference, at that party's turn, was it |
| FairShareLegacy.ThresholdStep | js/seat-allocation.js:105-117 | one party of the step keeps that description, including the votes credited to its first live preference |
| FairShareLegacy.ThresholdOneEffect | js/seat-allocation.js:105-117 | a below-threshold party is finalized with nothing unspent and loses any seats; its full votes go to its first live preference when there is one; every other party is unchanged |
| FairShareLegacy.FinalizeOneEffect | js/seat-allocation.js:144-161 | the loser is finalized with nothing unspent and keeps its seats; positive unspent votes go to its first live preference other than itself, and the active unspent total is unchanged; otherwise the total drops by the loser's unspent votes; every other party is unchanged |
| FairShareLegacy.TotalUnspent | js/seat-allocation.js:70 | the active unspent total is non-negative when every record's unspent votes are, and 0 when every party is finalized |
| FairShareLegacy.TotalUnspentUpdate | js/seat-allocation.js:70 | replacing one record changes the total by the change in that record's active unspent votes |
| FairShareLegacy.SeatCost | js/seat-allocation.js:68-73 | the cost is positive exactly when seats remain and active parties hold unspent votes |
| FairShareLegacy.AwardBounds | js/seat-allocation.js:128-140 | the awards add `awarded` seats, at most the seats left, keep unspent ≥ 0 and every party's seats × cost + unspent |
| FairShareLegacy.AwardStep | js/seat-allocation.js:131-139 | one party's award keeps that description |
| FairShareLegacy.TakeKeepsValue | js/seat-allocation.js:134-136 | buying seats keeps unspent votes non-negative and their value unchanged |
| FairShareLegacy.FinalizeKeeps | js/seat-allocation.js:144-161 | finalizing zeroes the party's unspent votes, keeps seats and non-negative unspent votes, and leaves finalized records alone |
| FairShareLegacy.RoundKeeps | js/seat-allocation.js:123-163 | one pass never overfills, keeps unspent ≥ 0 and leaves finalized records alone |
| FairShareLegacy.AwardKeepsFinalized | js/seat-allocation.js:129-131 | awards never change which parties are finalized |
| FairShareLegacy.FinalizesOnlyWhenIdle | js/seat-allocation.js:142-150 | a pass finalizes a party only when the cost is positive, nobody could afford a seat, seats remain, and the party is the weakest |
| FairShareLegacy.RunKeeps | js/seat-allocation.js:121-164 | the whole loop never overfills and leaves finalized records alone |
| FairShareLegacy.StartFacts | js/seat-allocation.js:79-119 | after round 1 and the threshold step the description holds and no seat is overfilled |
| FairShareLegacy.AllocateNoOverfill | js/seat-allocation.js:50-169 | the final seats add up to at most totalSeats |
| FairShareLegacy.AllocateBelowThreshold | js/seat-allocation.js:103-117 | a party below the threshold ends with no seats |
| FairShareLegacy.AllocateSeatsFairShareTransfersWithSteps | js/seat-allocation.js:50-169 | the method's seats equal the specification `Allocate` |
| FairShareLegacy.SeatsByParty | js/seat-allocation.js:166-167 | the result holds each party's seats |
| FairShareLegacy.InitParties | js/seat-allocation.js:52-58 | the copy loop makes fresh records of the clamped votes and sums them |
| FairShareLegacy.InitialAllocation | js/seat-allocation.js:81-84 | the loop performs the round-1 split of every party |
| FairShareLegacy.ApplyThreshold | js/seat-allocation.js:103-119 | the loop performs the threshold step |
| FairShareLegacy.ThresholdParty | js/seat-allocation.js:105-117 | one below-threshold party, updated in place |
| FairShareLegacy.RunRounds | js/seat-allocation.js:121-164 | the guarded while loop performs the passes |
| FairShareLegacy.PlayRound | js/seat-allocation.js:124-162 | one pass of the loop |
| FairShareLegacy.AwardSeats | js/seat-allocation.js:128-140 | the award loop over active parties |

## Left out

- Numbers are exact: votes and seats are unbounded integers and the legacy costs are exact reals. IEEE double rounding, `NaN` from `votesByParty[k] || 0` on non-numbers, and `parseInt`'s loss of precision on very long digit strings are not modelled.
- Human-readable output is not modelled: the `steps` strings, round `description`s, `fmt`, and the display names from `PARTY_META` in transfers, awards, snapshots and `finalParties`. The chart colours and names use a metadata map passed as a parameter.
- Randomness is not modelled. `generateDistrictShares` and `normalRandom` draw random numbers; district shares are an input of `Districts.SimulateElections`, and the number of districts is the length of that input.
- DOM, canvas and chart drawing are not modelled, and neither are the stores or configuration files.
- Parties.FindLive and Parties.TransferTarget look keys up as own properties only. A party key or preference equal to an `Object.prototype` property name (`"toString"`, `"constructor"`, …) is truthy in the source, so it would be picked as a target or make `.find` throw; such keys are not modelled.
- JavaScript object key order is insertion order here. Integer-like keys, which a JavaScript engine would list first, are not modelled.
- Districts.SimulateElections samples every district first and then tallies them. The source samples and tallies one district at a time. The results are the same, because sampling never reads the tallies.
- FairShare.AllocateSeatsFairShareTransfersWithSteps requires `totalSeats > 0` and `2 × grandTotal ≥ totalSeats`. Without these, the source divides by zero (`Math.floor(v / 0)`) and goes on with `NaN` or `Infinity`.
- FairShareLegacy.AllocateSeatsFairShareTransfersWithSteps requires `totalSeats > 0` and a positive vote total, for the same reason (`grandTotal / totalSeats` as the divisor).
- LargestRemainder.ScaleSeatsTo650 requires `totalSeats ≠ 0` whenever the seat sum is non-zero. Otherwise the source divides by zero.
- FairShare.Round omits the TypeScript test `remainingSeats() > 0` before finalizing. After the full-parliament break it always holds.
- FairShare.FinalParties takes `originalVotes` from the clamped `votes`. The source sets `originalVotes` to that same value and never changes it.
- Parties.Weakest is the first active party with the fewest seats, then the fewest votes. The source sorts the active parties with a stable sort and takes the first; that is the same party, but the sorted copy is not built.
- Party records are values in a sequence that each step reassigns, not shared mutable objects. Aliasing between `parties[k]` and the filtered arrays is therefore not modelled; the source never relies on it.
- HighestAverages.AllocateSeatsFairShare requires some party with positive votes when seats are asked for. With no quotient, the source reads `quotients[0].party` of `undefined` and throws.
- D'Hondt quotients are exact reals. Two quotients that are equal as reals tie and keep their push order, even where floating-point division might separate them.
- FairShare.AllocateNoOverfill assumes round 1 does not overfill. `FairShare.InitialRoundCanOverfill` shows that round 1 can overfill.
