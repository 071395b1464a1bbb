/**
 * The party records shared by both fair-share transfer allocators
 * (src/lib/seat-allocation.ts and js/seat-allocation.js): the per-party state,
 * the seat total, the choice of a transfer target among the preferences and
 * the choice of the party to finalize.
 *
 * A JavaScript object keyed by party is modelled as a sequence aligned with
 * the sequence of its keys, in insertion order; the keys are distinct.
 */
module Parties {
  import opened Base

  /**
   * One party's mutable record. `U` is the type of the unspent votes: an
   * integer in the TypeScript allocator, a real in the older one.
   */
  datatype PartyState<U> = PartyState(votes: int, seats: int, unspent: U, finalized: bool)

  predicate DistinctKeys(keys: seq<string>)
  {
    forall i, j :: 0 <= i < j < |keys| ==> keys[i] != keys[j]
  }

  /** `Math.max(0, votesByParty[k] || 0)` for every key. */
  function ClampVotes(votes: seq<int>): (r: seq<int>)
    ensures |r| == |votes|
    ensures forall i :: 0 <= i < |votes| ==> r[i] >= 0 && (votes[i] >= 0 ==> r[i] == votes[i]) && (votes[i] < 0 ==> r[i] == 0)
  {
    seq(|votes|, i requires 0 <= i < |votes| => Max(0, votes[i]))
  }

  // ---------------------------------------------------------------------------
  // seatsFilled

  /** `seatsFilled()`: the seats held by all parties, finalized or not. */
  function SeatsFilled<U>(ps: seq<PartyState<U>>): int
  {
    if ps == [] then 0 else SeatsFilled(ps[..|ps| - 1]) + ps[|ps| - 1].seats
  }

  /** With no record holding negative seats, the seat total is not negative. */
  lemma {:induction false} SeatsFilledNonNegative<U>(ps: seq<PartyState<U>>)
    requires forall i :: 0 <= i < |ps| ==> ps[i].seats >= 0
    ensures SeatsFilled(ps) >= 0
  {
    if ps != [] {
      SeatsFilledNonNegative(ps[..|ps| - 1]);
    }
  }

  /** Taking seats away from records never raises the seat total. */
  lemma {:induction false} SeatsFilledMonotone<U>(ps: seq<PartyState<U>>, qs: seq<PartyState<U>>)
    requires |ps| == |qs| && forall i :: 0 <= i < |ps| ==> qs[i].seats <= ps[i].seats
    ensures SeatsFilled(qs) <= SeatsFilled(ps)
  {
    if ps != [] {
      SeatsFilledMonotone(ps[..|ps| - 1], qs[..|qs| - 1]);
    }
  }

  /** Replacing one record changes the seat total by the change in that record's seats. */
  lemma {:induction false} SeatsFilledUpdate<U>(ps: seq<PartyState<U>>, i: nat, p: PartyState<U>)
    requires i < |ps|
    ensures SeatsFilled(ps[i := p]) == SeatsFilled(ps) - ps[i].seats + p.seats
  {
    var t := ps[i := p];
    if i < |ps| - 1 {
      assert t[..|t| - 1] == ps[..|ps| - 1][i := p];
      SeatsFilledUpdate(ps[..|ps| - 1], i, p);
    } else {
      assert t[..|t| - 1] == ps[..|ps| - 1];
    }
  }

  /** Records holding the same seats give the same seat total. */
  lemma {:induction false} SeatsFilledSame<U>(ps: seq<PartyState<U>>, qs: seq<PartyState<U>>)
    requires |ps| == |qs| && forall i :: 0 <= i < |ps| ==> ps[i].seats == qs[i].seats
    ensures SeatsFilled(ps) == SeatsFilled(qs)
  {
    if ps != [] {
      SeatsFilledSame(ps[..|ps| - 1], qs[..|qs| - 1]);
    }
  }

  // ---------------------------------------------------------------------------
  // The transfer target

  /** The position of key k among the keys: its first occurrence. */
  function IndexOf(keys: seq<string>, k: string): (i: nat)
    requires k in keys
    ensures i < |keys| && keys[i] == k
    ensures forall j :: 0 <= j < i ==> keys[j] != k
  {
    if keys[0] == k then 0 else 1 + IndexOf(keys[1..], k)
  }

  /** `parties[pk] && !parties[pk].finalized`: pk names a party that is still active. */
  predicate Live<U>(keys: seq<string>, ps: seq<PartyState<U>>, pk: string)
    requires |keys| == |ps|
  {
    pk in keys && !ps[IndexOf(keys, pk)].finalized
  }

  /** `prefs[key] || []`. */
  function PrefsOf(prefs: map<string, seq<string>>, key: string): seq<string>
  {
    if key in prefs then prefs[key] else []
  }

  /** `list.find(pk => parties[pk] && !parties[pk].finalized)`. */
  function FindLive<U>(keys: seq<string>, ps: seq<PartyState<U>>, list: seq<string>): (r: Option<string>)
    requires |keys| == |ps|
    ensures r.Some? ==> r.value in list && Live(keys, ps, r.value)
  {
    if list == [] then None
    else if Live(keys, ps, list[0]) then Some(list[0])
    else FindLive(keys, ps, list[1..])
  }

  /** `find` returns the first live entry of the list, and nothing exactly when no entry is live. */
  lemma {:induction false} FindLiveFirst<U>(keys: seq<string>, ps: seq<PartyState<U>>, list: seq<string>)
    requires |keys| == |ps|
    ensures FindLive(keys, ps, list).None? <==> forall i :: 0 <= i < |list| ==> !Live(keys, ps, list[i])
    ensures FindLive(keys, ps, list).Some? ==>
      exists j :: 0 <= j < |list| && list[j] == FindLive(keys, ps, list).value &&
        forall i :: 0 <= i < j ==> !Live(keys, ps, list[i])
  {
    if list != [] && !Live(keys, ps, list[0]) {
      FindLiveFirst(keys, ps, list[1..]);
      if FindLive(keys, ps, list[1..]).Some? {
        var j :| 0 <= j < |list[1..]| && list[1..][j] == FindLive(keys, ps, list[1..]).value &&
          forall i :: 0 <= i < j ==> !Live(keys, ps, list[1..][i]);
        assert list[j + 1] == list[1..][j];
        forall i | 0 <= i < j + 1 ensures !Live(keys, ps, list[i]) {
          if i > 0 {
            assert list[i] == list[1..][i - 1];
          }
        }
      } else {
        forall i | 0 <= i < |list| ensures !Live(keys, ps, list[i]) {
          if i > 0 {
            assert list[i] == list[1..][i - 1];
          }
        }
      }
    }
  }

  /**
   * The party that receives party k's transferable votes: the first of k's
   * preferences that names an active party. An empty key found first is
   * falsy in `if (target)`, so it means no transfer. The target may be k
   * itself when k lists its own key and is still active.
   */
  function TransferTarget<U>(keys: seq<string>, ps: seq<PartyState<U>>, prefs: map<string, seq<string>>, k: nat): (r: Option<nat>)
    requires |keys| == |ps| && k < |keys|
    ensures r.Some? ==> r.value < |ps| && !ps[r.value].finalized && keys[r.value] != ""
    ensures r.Some? ==> keys[r.value] in PrefsOf(prefs, keys[k])
  {
    match FindLive(keys, ps, PrefsOf(prefs, keys[k]))
    case None => None
    case Some(pk) => if pk == "" then None else Some(IndexOf(keys, pk))
  }

  /** The target is found exactly when the first live preference exists and is not the empty key; it is that preference. */
  lemma TransferTargetFirst<U>(keys: seq<string>, ps: seq<PartyState<U>>, prefs: map<string, seq<string>>, k: nat)
    requires |keys| == |ps| && k < |keys|
    ensures TransferTarget(keys, ps, prefs, k).None? <==>
      (forall i :: 0 <= i < |PrefsOf(prefs, keys[k])| ==> !Live(keys, ps, PrefsOf(prefs, keys[k])[i]))
      || FindLive(keys, ps, PrefsOf(prefs, keys[k])) == Some("")
    ensures TransferTarget(keys, ps, prefs, k).Some? ==>
      var list := PrefsOf(prefs, keys[k]);
      exists j :: 0 <= j < |list| && list[j] == keys[TransferTarget(keys, ps, prefs, k).value] &&
        forall i :: 0 <= i < j ==> !Live(keys, ps, list[i])
  {
    FindLiveFirst(keys, ps, PrefsOf(prefs, keys[k]));
  }

  /** The target depends on nothing but the keys, the preferences and which parties are finalized. */
  lemma {:induction false} TransferTargetFinalizedOnly<U>(keys: seq<string>, ps: seq<PartyState<U>>, qs: seq<PartyState<U>>,
                                                          prefs: map<string, seq<string>>, k: nat)
    requires |keys| == |ps| == |qs| && k < |keys|
    requires forall i :: 0 <= i < |ps| ==> ps[i].finalized == qs[i].finalized
    ensures TransferTarget(keys, ps, prefs, k) == TransferTarget(keys, qs, prefs, k)
  {
    FindLiveSame(keys, ps, qs, PrefsOf(prefs, keys[k]));
  }

  lemma {:induction false} FindLiveSame<U>(keys: seq<string>, ps: seq<PartyState<U>>, qs: seq<PartyState<U>>, list: seq<string>)
    requires |keys| == |ps| == |qs|
    requires forall i :: 0 <= i < |ps| ==> ps[i].finalized == qs[i].finalized
    ensures FindLive(keys, ps, list) == FindLive(keys, qs, list)
  {
    if list != [] {
      FindLiveSame(keys, ps, qs, list[1..]);
    }
  }

  // ---------------------------------------------------------------------------
  // The party to finalize

  /** Party a sorts strictly before party b under `(a, b) => a.seats - b.seats || a.votes - b.votes`. */
  predicate Lighter<U>(ps: seq<PartyState<U>>, a: nat, b: nat)
    requires a < |ps| && b < |ps|
  {
    ps[a].seats < ps[b].seats || (ps[a].seats == ps[b].seats && ps[a].votes < ps[b].votes)
  }

  /**
   * The first of the active parties among the first n once they are stably
   * sorted by fewest seats, then fewest votes: `candidatesToFinalize[0]`
   * after the sort, or nothing when every party is finalized.
   */
  function Weakest<U>(ps: seq<PartyState<U>>, n: nat): (r: Option<nat>)
    requires n <= |ps|
    ensures r.Some? ==> r.value < n && !ps[r.value].finalized
  {
    if n == 0 then None
    else
      var prev := Weakest(ps, n - 1);
      if ps[n - 1].finalized then prev
      else if prev.None? || Lighter(ps, n - 1, prev.value) then Some(n - 1)
      else prev
  }

  /**
   * There is a party to finalize exactly when some party is active, and it
   * goes before every other active party: it is lighter, or they tie and it
   * comes first in key order (the sort is stable).
   */
  lemma {:induction false} WeakestIsFirst<U>(ps: seq<PartyState<U>>, n: nat)
    requires n <= |ps|
    ensures Weakest(ps, n).None? <==> forall j :: 0 <= j < n ==> ps[j].finalized
    ensures Weakest(ps, n).Some? ==>
      forall j :: 0 <= j < n && !ps[j].finalized && j != Weakest(ps, n).value ==>
        Lighter(ps, Weakest(ps, n).value, j) || (!Lighter(ps, j, Weakest(ps, n).value) && Weakest(ps, n).value < j)
  {
    if n > 0 {
      WeakestIsFirst(ps, n - 1);
    }
  }

  /** The choice reads only seats, votes and the finalized flags. */
  lemma {:induction false} WeakestSame<U>(ps: seq<PartyState<U>>, qs: seq<PartyState<U>>, n: nat)
    requires n <= |ps| == |qs|
    requires forall i :: 0 <= i < |ps| ==>
      ps[i].finalized == qs[i].finalized && ps[i].seats == qs[i].seats && ps[i].votes == qs[i].votes
    ensures Weakest(ps, n) == Weakest(qs, n)
  {
    if n > 0 {
      WeakestSame(ps, qs, n - 1);
    }
  }

  // ---------------------------------------------------------------------------
  // Finalized records

  /** Every record finalized in ps is unchanged in qs, and no party's votes change. */
  predicate Frozen<U(==)>(ps: seq<PartyState<U>>, qs: seq<PartyState<U>>)
  {
    && |qs| == |ps|
    && (forall i :: 0 <= i < |ps| ==> qs[i].votes == ps[i].votes)
    && (forall i :: 0 <= i < |ps| && ps[i].finalized ==> qs[i] == ps[i])
  }

  lemma FrozenTrans<U>(ps: seq<PartyState<U>>, qs: seq<PartyState<U>>, rs: seq<PartyState<U>>)
    requires Frozen(ps, qs) && Frozen(qs, rs)
    ensures Frozen(ps, rs)
  {
  }
}
