/** The checksum of card-like numbers (Annex B of ISO/IEC 7812-1) and what it detects. */
module Luhn {

  predicate IsDigit(c: char) { '0' <= c <= '9' }

  ghost predicate IsDigits(s: string) {
    forall i :: 0 <= i < |s| ==> IsDigit(s[i])
  }

  /** What one digit adds to the sum. */
  function Worth(c: char, double: bool): int
    requires IsDigit(c)
  {
    var value := c as int - '0' as int;
    if !double then value
    else if 2 * value > 9 then 2 * value - 9
    else 2 * value
  }

  /** Every second digit is doubled, counting from the right. */
  function Sum(digits: string): int
    requires IsDigits(digits)
  {
    if digits == "" then 0 else Worth(digits[0], |digits| % 2 == 0) + Sum(digits[1..])
  }

  ghost predicate Valid(digits: string)
    requires IsDigits(digits)
  {
    Sum(digits) % 10 == 0
  }

  method LuhnValid(digits: string) returns (ok: bool)
    requires IsDigits(digits)
    ensures ok <==> Valid(digits)
  {
    var sum := 0;
    var double := false;
    var index := |digits| - 1;
    while index >= 0
      invariant -1 <= index < |digits|
      invariant sum == Sum(digits[index + 1..])
      invariant double <==> (|digits| - index) % 2 == 0
    {
      var value := digits[index] as int - '0' as int;
      if double {
        value := value * 2;
        if value > 9 { value := value - 9; }
      }
      assert digits[index..][1..] == digits[index + 1..];
      sum := sum + value;
      double := !double;
      index := index - 1;
    }
    assert digits[0..] == digits;
    ok := sum % 10 == 0;
  }

  predicate Doubled(digits: string, i: nat) {
    (|digits| - i) % 2 == 0
  }

  /** Replacing one digit changes the sum by the difference of the two digits' worth. */
  lemma {:induction false} ReplaceChangesSum(digits: string, i: nat, d: char)
    requires IsDigits(digits) && i < |digits| && IsDigit(d)
    ensures Sum(digits[i := d]) == Sum(digits) - Worth(digits[i], Doubled(digits, i)) + Worth(d, Doubled(digits, i))
  {
    var replaced := digits[i := d];
    if i == 0 {
      assert replaced[1..] == digits[1..];
    } else {
      assert replaced[1..] == digits[1..][i - 1 := d];
      ReplaceChangesSum(digits[1..], i - 1, d);
    }
  }

  /**
   * Counting from the right, the first, third, ... digit adds itself to the sum; the second, fourth, ...
   * adds the digits of its double. This determines every sum from that of zeros, which is zero.
   */
  lemma SumByPlaces(digits: string, i: nat, d: char)
    requires IsDigits(digits) && i < |digits| && digits[i] == '0' && IsDigit(d)
    ensures var place, value := |digits| - i, d as int - '0' as int;
            Sum(digits[i := d]) - Sum(digits) == if place % 2 == 1 then value else (2 * value) / 10 + (2 * value) % 10
  {
    ReplaceChangesSum(digits, i, d);
  }

  lemma {:induction false} SumOfZeros(digits: string)
    requires forall i :: 0 <= i < |digits| ==> digits[i] == '0'
    ensures Sum(digits) == 0
  {
    if digits != "" { SumOfZeros(digits[1..]); }
  }

  lemma WorthInjective(a: char, b: char, double: bool)
    requires IsDigit(a) && IsDigit(b) && a != b
    ensures Worth(a, double) != Worth(b, double) && 0 <= Worth(a, double) <= 9
  {
  }

  /** Any single wrong digit is detected, in numbers of any length. */
  lemma SingleErrorDetected(digits: string, i: nat, d: char)
    requires IsDigits(digits) && Valid(digits)
    requires i < |digits| && IsDigit(d) && d != digits[i]
    ensures !Valid(digits[i := d])
  {
    ReplaceChangesSum(digits, i, d);
    WorthInjective(digits[i], d, Doubled(digits, i));
    WorthInjective(d, digits[i], Doubled(digits, i));
    SmallChangeShows(Sum(digits), Worth(digits[i], Doubled(digits, i)), Worth(d, Doubled(digits, i)));
  }

  lemma SmallChangeShows(sum: int, before: int, after: int)
    requires sum % 10 == 0 && 0 <= before <= 9 && 0 <= after <= 9 && before != after
    ensures (sum - before + after) % 10 != 0
  {
    StaysMultiple(sum, after - before);
  }

  lemma StaysMultiple(sum: int, change: int)
    requires sum % 10 == 0
    ensures (sum + change) % 10 == 0 <==> change % 10 == 0
  {
  }

  function Swapped(digits: string, i: nat): string
    requires i + 1 < |digits|
  {
    digits[i := digits[i + 1]][i + 1 := digits[i]]
  }

  /** Swapping two neighbouring digits goes unnoticed only for equal digits and for 0 next to 9. */
  lemma SwapDetected(digits: string, i: nat)
    requires IsDigits(digits) && Valid(digits) && i + 1 < |digits|
    ensures Valid(Swapped(digits, i)) <==> digits[i] == digits[i + 1] || {digits[i], digits[i + 1]} == {'0', '9'}
  {
    var a, b := digits[i], digits[i + 1];
    var once := digits[i := b];
    ReplaceChangesSum(digits, i, b);
    ReplaceChangesSum(once, i + 1, a);
    assert once[i + 1 := a] == Swapped(digits, i);
    SwapChangeZero(a, b, Doubled(digits, i));
    StaysMultiple(Sum(digits), SwapChange(a, b, Doubled(digits, i)));
    SetOfTwo(a, b);
  }

  lemma SetOfTwo(a: char, b: char)
    ensures {a, b} == {'0', '9'} <==> (a == '0' && b == '9') || (a == '9' && b == '0')
  {
    if {a, b} == {'0', '9'} {
      assert a in {'0', '9'} && b in {'0', '9'};
      assert '0' in {a, b} && '9' in {a, b};
    }
  }

  function SwapChange(a: char, b: char, double: bool): int
    requires IsDigit(a) && IsDigit(b)
  {
    Worth(b, double) - Worth(a, double) + Worth(a, !double) - Worth(b, !double)
  }

  lemma SwapChangeZero(a: char, b: char, double: bool)
    requires IsDigit(a) && IsDigit(b)
    ensures SwapChange(a, b, double) % 10 == 0 <==> a == b || (a == '0' && b == '9') || (a == '9' && b == '0')
  {
    var x, y := a as int - '0' as int, b as int - '0' as int;
    assert Worth(a, true) - Worth(a, false) == if x > 4 then x - 9 else x;
    assert Worth(b, true) - Worth(b, false) == if y > 4 then y - 9 else y;
  }
}
