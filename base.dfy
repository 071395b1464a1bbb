/** Small arithmetic and collection helpers shared by every other module. */
module Base {

  datatype Option<T> = None | Some(value: T)

  function Max(a: int, b: int): int { if a < b then b else a }

  function Min(a: int, b: int): int { if a < b then a else b }

  /** Sum of a sequence of integers, folded left to right like `reduce((a, x) => a + x, 0)`. */
  function Sum(s: seq<int>): int
  {
    if s == [] then 0 else Sum(s[..|s| - 1]) + s[|s| - 1]
  }

  /** Sum of a sequence of reals, folded the same way. */
  function SumReal(s: seq<real>): real
  {
    if s == [] then 0.0 else SumReal(s[..|s| - 1]) + s[|s| - 1]
  }

  /** Changing one entry changes the sum by the difference. */
  lemma {:induction false} SumUpdate(s: seq<int>, i: nat, v: int)
    requires i < |s|
    ensures Sum(s[i := v]) == Sum(s) - s[i] + v
  {
    var t := s[i := v];
    if i < |s| - 1 {
      assert t[..|t| - 1] == s[..|s| - 1][i := v];
      SumUpdate(s[..|s| - 1], i, v);
    } else {
      assert t[..|t| - 1] == s[..|s| - 1];
    }
  }

  lemma {:induction false} SumAppend(s: seq<int>, t: seq<int>)
    ensures Sum(s + t) == Sum(s) + Sum(t)
    decreases |t|
  {
    if t != [] {
      assert (s + t)[..|s + t| - 1] == s + t[..|t| - 1];
      SumAppend(s, t[..|t| - 1]);
    } else {
      assert s + t == s;
    }
  }

  /** Two sequences holding the same multiset of values have the same sum. */
  lemma {:induction false} SumPermutation(s: seq<int>, t: seq<int>)
    requires multiset(s) == multiset(t)
    ensures Sum(s) == Sum(t)
    decreases |s|
  {
    if s != [] {
      var x := s[|s| - 1];
      assert x in multiset(t);
      var j :| 0 <= j < |t| && t[j] == x;
      var t' := t[..j] + t[j + 1..];
      assert t == t[..j] + [x] + t[j + 1..];
      assert s == s[..|s| - 1] + [x];
      assert multiset(t) == multiset(t[..j]) + multiset{x} + multiset(t[j + 1..]);
      assert multiset(s) == multiset(s[..|s| - 1]) + multiset{x};
      assert multiset(t') == multiset(t[..j]) + multiset(t[j + 1..]);
      assert multiset(s[..|s| - 1]) + multiset{x} == multiset(t') + multiset{x};
      assert multiset(s[..|s| - 1]) == multiset(s[..|s| - 1]) + multiset{x} - multiset{x};
      assert multiset(t') == multiset(t') + multiset{x} - multiset{x};
      SumPermutation(s[..|s| - 1], t');
      SumAppend(t[..j] + [x], t[j + 1..]);
      SumAppend(t[..j], [x]);
      SumAppend(t[..j], t[j + 1..]);
      assert Sum([x]) == x by { assert [x][..0] == []; }
    } else {
      assert |multiset(t)| == 0;
    }
  }

  /** A sequence of zeros sums to zero. */
  lemma {:induction false} ZeroSum(t: seq<int>)
    requires forall x :: 0 <= x < |t| ==> t[x] == 0
    ensures Sum(t) == 0
  {
    if t != [] {
      ZeroSum(t[..|t| - 1]);
    }
  }

  /** `Math.round(x)`: the nearest integer, halves rounded up. */
  function RoundHalfUp(x: real): int
  {
    (x + 0.5).Floor
  }

  /** `Math.ceil(x)`. */
  function Ceil(x: real): (r: int)
    ensures x <= r as real < x + 1.0
  {
    -((-x).Floor)
  }

  /**
   * `Math.round(a / b)` computed exactly on integers, for a positive divisor:
   * the integer nearest to a/b, a half rounded up.
   */
  function RoundDiv(a: int, b: int): (r: int)
    requires b > 0
    ensures r == RoundHalfUp(a as real / b as real)
  {
    var r := (2 * a + b) / (2 * b);
    RoundDivIsRound(a, b, r);
    r
  }

  lemma RoundDivIsRound(a: int, b: int, r: int)
    requires b > 0 && r == (2 * a + b) / (2 * b)
    ensures r == RoundHalfUp(a as real / b as real)
  {
    var y := a as real / b as real;
    var z := (2 * a + b) as real / (2 * b) as real;
    assert y * b as real == a as real;
    assert z * (2 * b) as real == (2 * a + b) as real;
    assert (y + 0.5) * (2 * b) as real == (2 * a + b) as real;
    assert (z - (y + 0.5)) * (2 * b) as real == 0.0;
    ZeroProduct(z - (y + 0.5), (2 * b) as real);
    DivFloor(2 * a + b, 2 * b);
  }

  lemma ZeroProduct(p: real, q: real)
    requires q > 0.0 && p * q == 0.0
    ensures p == 0.0
  {
  }

  /** Integer division by a positive divisor is the floor of the exact quotient. */
  lemma DivFloor(p: int, q: int)
    requires q > 0
    ensures (p as real / q as real).Floor == p / q
  {
    var k, m := p / q, p % q;
    assert p == q * k + m && 0 <= m < q;
    assert p as real == (q * k) as real + m as real;
    assert (q * k) as real == q as real * k as real;
    assert p as real / q as real == k as real + m as real / q as real;
    assert 0.0 <= m as real / q as real < 1.0;
  }

  /** Non-negative rounded division never exceeds the plain quotient by more than a half. */
  lemma RoundDivNonNegative(a: int, b: int)
    requires a >= 0 && b > 0
    ensures RoundDiv(a, b) >= 0
    ensures a == 0 ==> RoundDiv(a, b) == 0
  {
  }
}
