/**
 * The two pure helpers `clamp01` and `parseClean`, identical in js/utils.js
 * and src/lib/utils.ts. Numbers are exact reals and unbounded integers.
 */
module Utils {

  /** `Math.max(0, Math.min(1, x))`. */
  function Clamp01(x: real): (r: real)
    ensures 0.0 <= r <= 1.0
    ensures 0.0 <= x <= 1.0 ==> r == x
    ensures x < 0.0 ==> r == 0.0
    ensures x > 1.0 ==> r == 1.0
  {
    var m := if 1.0 < x then 1.0 else x;
    if 0.0 < m then m else 0.0
  }

  /** Clamping never reverses the order of two values. */
  lemma Clamp01Monotone(x: real, y: real)
    requires x <= y
    ensures Clamp01(x) <= Clamp01(y)
  {
  }

  /** Clamping a clamped value changes nothing. */
  lemma Clamp01Idempotent(x: real)
    ensures Clamp01(Clamp01(x)) == Clamp01(x)
  {
  }

  predicate IsDigit(c: char)
  {
    '0' <= c <= '9'
  }

  /** `s.replace(/[^0-9]/g, '')`: the digits of s, in order. */
  function Digits(s: string): (r: string)
    ensures |r| <= |s|
    ensures forall i :: 0 <= i < |r| ==> IsDigit(r[i])
  {
    if s == [] then []
    else Digits(s[..|s| - 1]) + (if IsDigit(s[|s| - 1]) then [s[|s| - 1]] else [])
  }

  /** The value of a string of decimal digits, most significant first. */
  function DecimalValue(ds: string): nat
    requires forall i :: 0 <= i < |ds| ==> IsDigit(ds[i])
  {
    if ds == [] then 0
    else
      var d := ds[|ds| - 1];
      assert IsDigit(d);
      10 * DecimalValue(ds[..|ds| - 1]) + (d - '0') as int
  }

  /** A leading zero does not change the value: `parseInt` reads "007" as 7. */
  lemma {:induction false} LeadingZero(ds: string)
    requires forall i :: 0 <= i < |ds| ==> IsDigit(ds[i])
    ensures DecimalValue(['0'] + ds) == DecimalValue(ds)
  {
    var s := ['0'] + ds;
    if ds != [] {
      assert s[..|s| - 1] == ['0'] + ds[..|ds| - 1];
      LeadingZero(ds[..|ds| - 1]);
    } else {
      assert s[..|s| - 1] == [];
    }
  }

  /**
   * `parseInt(s.replace(/[^0-9]/g, '') || '0', 10)`: the decimal number
   * written by the digits of s, ignoring every other character; 0 when s has
   * no digits (the `|| '0'` fallback).
   */
  function ParseClean(s: string): (r: nat)
    ensures (forall i :: 0 <= i < |s| ==> !IsDigit(s[i])) ==> r == 0
  {
    var ds := Digits(s);
    NoDigitsEmpty(s);
    if ds == [] then DecimalValue("0") else DecimalValue(ds)
  }

  lemma {:induction false} NoDigitsEmpty(s: string)
    ensures (forall i :: 0 <= i < |s| ==> !IsDigit(s[i])) ==> Digits(s) == []
  {
    if s != [] && forall i :: 0 <= i < |s| ==> !IsDigit(s[i]) {
      NoDigitsEmpty(s[..|s| - 1]);
    }
  }

  lemma {:induction false} DigitsAppend(s: string, t: string)
    ensures Digits(s + t) == Digits(s) + Digits(t)
    decreases |t|
  {
    if t == [] {
      assert s + t == s;
    } else {
      var k := |t| - 1;
      assert (s + t)[..|s + t| - 1] == s + t[..k];
      DigitsAppend(s, t[..k]);
    }
  }

  /** Removing one non-digit character (a separator, a sign, a point) leaves the result unchanged. */
  lemma ParseCleanIgnoresNonDigit(s: string, c: char, t: string)
    requires !IsDigit(c)
    ensures ParseClean(s + [c] + t) == ParseClean(s + t)
  {
    DigitsAppend(s + [c], t);
    DigitsAppend(s, [c]);
    DigitsAppend(s, t);
    assert Digits([c]) == [] by { assert [c][..0] == []; }
    assert Digits(s + [c]) == Digits(s);
    assert Digits(s + [c] + t) == Digits(s + t);
  }

  /** "1,234" and "1.234" both read as 1234: separators are dropped, not interpreted. */
  lemma ParseCleanSeparators()
    ensures ParseClean("1,234") == 1234 && ParseClean("1.234") == 1234
  {
    ParseCleanIgnoresNonDigit("1", ',', "234");
    ParseCleanIgnoresNonDigit("1", '.', "234");
    assert "1" + [','] + "234" == "1,234" && "1" + ['.'] + "234" == "1.234" && "1" + "234" == "1234";
    ParseCleanDecimal(1234);
    assert Decimal(1234) == "1234";
  }

  lemma {:induction false} DigitsOnly(s: string)
    requires forall i :: 0 <= i < |s| ==> IsDigit(s[i])
    ensures Digits(s) == s
  {
    if s != [] {
      DigitsOnly(s[..|s| - 1]);
    }
  }

  /** `String(n)`: the decimal rendering of a natural number, without leading zeros. */
  function Decimal(n: nat): (r: string)
    ensures |r| >= 1
    ensures forall i :: 0 <= i < |r| ==> IsDigit(r[i])
  {
    var last := ['0' + (n % 10) as char];
    if n < 10 then last else Decimal(n / 10) + last
  }

  /** Parsing the decimal rendering of any natural number gives it back. */
  lemma {:induction false} ParseCleanDecimal(n: nat)
    ensures ParseClean(Decimal(n)) == n
  {
    DigitsOnly(Decimal(n));
    DecimalRoundTrip(n);
  }

  lemma {:induction false} DecimalRoundTrip(n: nat)
    ensures DecimalValue(Decimal(n)) == n
  {
    var r := Decimal(n);
    if n < 10 {
      assert r[..0] == [];
    } else {
      assert r[..|r| - 1] == Decimal(n / 10);
      DecimalRoundTrip(n / 10);
    }
  }
}
