/** Decimal numerals, read by the place of each digit. */
module Numerals {
  function Pow10(k: nat): nat {
    if k == 0 then 1 else 10 * Pow10(k - 1)
  }

  /** The first digit times ten for every digit behind it, and what the rest says. */
  ghost function Value(digits: seq<nat>): nat {
    if digits == [] then 0 else digits[0] * Pow10(|digits| - 1) + Value(digits[1..])
  }

  lemma {:induction false} ValueAppend(digits: seq<nat>, d: nat)
    ensures Value(digits + [d]) == 10 * Value(digits) + d
  {
    if digits == [] {
      assert [] + [d] == [d] && [d][1..] == [] && Pow10(0) == 1;
    } else {
      var more := digits + [d];
      assert more[1..] == digits[1..] + [d];
      ValueAppend(digits[1..], d);
      TenMore(digits[0], Pow10(|digits| - 1));
    }
  }

  lemma TenMore(a: nat, p: nat)
    ensures a * (10 * p) == 10 * (a * p)
  {
  }
}
