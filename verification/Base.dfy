/** Shared vocabulary: machine integers, identifiers and optional values. */
module Base {

  /** A UUID. Only equality, order and the nil value matter to the gateway. */
  type Id = nat
  const NIL: Id := 0

  const INT64_MAX: int := 0x7FFF_FFFF_FFFF_FFFF
  const TWO_TO_64: int := 0x1_0000_0000_0000_0000

  predicate IsInt64(x: int) {
    -INT64_MAX - 1 <= x <= INT64_MAX
  }

  /** The value Go's int64 `+` and `-` leave behind: two's complement wrap-around. */
  function Wrap64(x: int): (r: int)
    ensures IsInt64(r)
    ensures IsInt64(x) ==> r == x
  {
    var m := x % TWO_TO_64;
    if m > INT64_MAX then m - TWO_TO_64 else m
  }

  /** The int64 that differs from `x` by a multiple of 2^64. */
  lemma WrapsAround(x: int)
    ensures IsInt64(Wrap64(x)) && (x - Wrap64(x)) % TWO_TO_64 == 0
  {
    var m := x % TWO_TO_64;
    assert x == TWO_TO_64 * (x / TWO_TO_64) + m;
    if m > INT64_MAX {
      assert x - Wrap64(x) == TWO_TO_64 * (x / TWO_TO_64 + 1);
      Multiple(x / TWO_TO_64 + 1);
    } else {
      assert x - Wrap64(x) == TWO_TO_64 * (x / TWO_TO_64);
      Multiple(x / TWO_TO_64);
    }
  }

  lemma Multiple(n: int)
    ensures (TWO_TO_64 * n) % TWO_TO_64 == 0
  {
  }

  function Max(a: int, b: int): int {
    if a > b then a else b
  }

  datatype Option<+T> = None | Some(value: T)
}
