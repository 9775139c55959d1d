/**
  The Luhn check that keeps order numbers from being reported as card numbers.

  `Total` weighs a digit by its distance from the right end, which is how
  Annex B of ISO/IEC 7812-1 defines the sum; `Luhn` is the loop over the
  reversed string.
 */
module Luhn {

  newtype Digit = d: int | 0 <= d <= 9

  // A digit's share of the sum: plain at an even distance from the right end, doubled and reduced at an odd one.
  function Share(distance: nat, d: Digit): nat {
    var v := d as int;
    if distance % 2 == 1 then (if v * 2 > 9 then v * 2 - 9 else v * 2) else v
  }

  function Total(digits: seq<Digit>): nat {
    if digits == [] then 0 else Share(|digits| - 1, digits[0]) + Total(digits[1..])
  }

  predicate IsValid(digits: seq<Digit>) {
    Total(digits) % 10 == 0
  }

  method Luhn(digits: seq<Digit>) returns (valid: bool)
    ensures valid == IsValid(digits)
  {
    var total := 0;
    var i := 0;
    while i < |digits|
      invariant 0 <= i <= |digits|
      invariant total == Total(digits[|digits| - i..])
    {
      var d := digits[|digits| - 1 - i] as int;
      if i % 2 == 1 {
        d := if d * 2 > 9 then d * 2 - 9 else d * 2;
      }
      ghost var suffix := digits[|digits| - 1 - i..];
      assert suffix[1..] == digits[|digits| - i..];
      total := total + d;
      i := i + 1;
    }
    assert digits[0..] == digits;
    valid := total % 10 == 0;
  }

  // Changing the k-th digit moves the sum by the change of that digit's share.
  lemma {:induction false} TotalAfterChange(digits: seq<Digit>, k: nat, d: Digit)
    requires k < |digits|
    ensures Total(digits[k := d]) == Total(digits) - Share(|digits| - 1 - k, digits[k]) + Share(|digits| - 1 - k, d)
  {
    if k == 0 {
      assert digits[0 := d][1..] == digits[1..];
    } else {
      TotalAfterChange(digits[1..], k - 1, d);
      assert digits[k := d][1..] == digits[1..][k - 1 := d];
    }
  }

  // What a digit adds to the sum: itself at an even distance from the right end, and at an odd one twice
  // itself, less 9 if that has two digits.
  lemma WeightsAlternate(digits: seq<Digit>, k: nat, d: Digit)
    requires k < |digits|
    ensures Total(digits[k := d]) - Total(digits[k := 0]) ==
      if (|digits| - 1 - k) % 2 == 0 then d as int else if d < 5 then 2 * d as int else 2 * d as int - 9
  {
    TotalAfterChange(digits, k, d);
    TotalAfterChange(digits, k, 0);
  }

  lemma {:induction false} ZerosAddNothing(digits: seq<Digit>)
    requires forall i :: 0 <= i < |digits| ==> digits[i] == 0
    ensures Total(digits) == 0
  {
    if digits != [] {
      ZerosAddNothing(digits[1..]);
    }
  }

  // On ten digits, both kinds of share are one-to-one modulo 10.
  lemma ShareIsInjective(distance: nat, a: Digit, b: Digit)
    ensures Share(distance, a) % 10 == Share(distance, b) % 10 <==> a == b
  {}

  lemma SameResidue(total: int, x: int, y: int)
    requires total % 10 == 0
    ensures (total - x + y) % 10 == 0 <==> x % 10 == y % 10
  {
    var q := total / 10;
    assert total - x + y == 10 * q + (y - x);
  }

  // Every single-digit error is detected.
  lemma SingleErrorDetected(digits: seq<Digit>, k: nat, d: Digit)
    requires k < |digits| && IsValid(digits)
    ensures IsValid(digits[k := d]) <==> d == digits[k]
  {
    var n := |digits| - 1 - k;
    TotalAfterChange(digits, k, d);
    ShareIsInjective(n, digits[k], d);
    SameResidue(Total(digits), Share(n, digits[k]), Share(n, d));
  }

  predicate IsZeroNine(a: Digit, b: Digit) {
    (a == 0 && b == 9) || (a == 9 && b == 0)
  }

  lemma TotalAfterSwap(digits: seq<Digit>, k: nat)
    requires k + 1 < |digits|
    ensures var a, b, n := digits[k], digits[k + 1], |digits| - 1 - k;
      Total(digits[k := b][k + 1 := a]) ==
        Total(digits) - (Share(n, a) + Share(n - 1, b)) + (Share(n, b) + Share(n - 1, a))
  {
    TotalAfterChange(digits, k, digits[k + 1]);
    TotalAfterChange(digits[k := digits[k + 1]], k + 1, digits[k]);
  }

  // Swapping two neighbours is detected unless they are equal, or are 0 and 9.
  lemma TranspositionDetected(digits: seq<Digit>, k: nat)
    requires k + 1 < |digits| && IsValid(digits)
    ensures IsValid(digits[k := digits[k + 1]][k + 1 := digits[k]])
       <==> digits[k] == digits[k + 1] || IsZeroNine(digits[k], digits[k + 1])
  {
    var a, b, n := digits[k], digits[k + 1], |digits| - 1 - k;
    TotalAfterSwap(digits, k);
    TranspositionShares(n, a, b);
    SameResidue(Total(digits), Share(n, a) + Share(n - 1, b), Share(n, b) + Share(n - 1, a));
  }

  // What doubling adds to a digit, up to a multiple of 10.
  function Gain(d: Digit): nat {
    if d <= 4 then d as int else d as int + 1
  }

  lemma DoublingGains(distance: nat, d: Digit)
    ensures distance % 2 == 0 ==> Share(distance, d) == d as int
    ensures distance % 2 == 1 ==> Share(distance, d) == d as int + Gain(d) - if d <= 4 then 0 else 10
  {}

  lemma Congruent(x: int, y: int, gap: int, k: int)
    requires x - y == gap + 10 * k && -10 <= gap <= 10
    ensures x % 10 == y % 10 <==> gap == 0 || gap == 10 || gap == -10
  {}

  lemma TranspositionShares(distance: nat, a: Digit, b: Digit)
    requires distance >= 1
    ensures (Share(distance, a) + Share(distance - 1, b)) % 10 == (Share(distance, b) + Share(distance - 1, a)) % 10
       <==> a == b || IsZeroNine(a, b)
  {
    DoublingGains(distance, a);
    DoublingGains(distance, b);
    DoublingGains(distance - 1, a);
    DoublingGains(distance - 1, b);
    var x, y := Share(distance, a) + Share(distance - 1, b), Share(distance, b) + Share(distance - 1, a);
    var k := (if b <= 4 then 0 else 1) - (if a <= 4 then 0 else 1);
    if distance % 2 == 1 {
      Congruent(x, y, Gain(a) - Gain(b), k);
    } else {
      Congruent(y, x, Gain(a) - Gain(b), k);
    }
  }

  function CheckDigit(total: nat): Digit {
    ((10 - total % 10) % 10) as Digit
  }

  lemma CheckDigitCompletes(total: nat, x: Digit)
    ensures (total + x as int) % 10 == 0 <==> x == CheckDigit(total)
  {
    var q, r := total / 10, total % 10;
    assert total + x as int == 10 * q + (r + x as int);
  }

  // `c` is the one digit that completes `prefix` to a valid number.
  ghost predicate OnlyCheckDigit(prefix: seq<Digit>, c: Digit) {
    forall x: Digit :: IsValid(prefix + [x]) <==> x == c
  }

  // Every prefix has exactly one check digit.
  lemma UniqueCheckDigit(prefix: seq<Digit>)
    ensures exists c: Digit :: OnlyCheckDigit(prefix, c)
  {
    var base := prefix + [0];
    var c := CheckDigit(Total(base));
    forall x: Digit
      ensures IsValid(prefix + [x]) <==> x == c
    {
      TotalAfterChange(base, |prefix|, x);
      assert base[|prefix| := x] == prefix + [x];
      CheckDigitCompletes(Total(base), x);
    }
    assert OnlyCheckDigit(prefix, c);
  }
}
