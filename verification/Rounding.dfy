/** Decimal quantisation of an exact rational `num / den` to the nearest integer. */
module Rounding {
  // Prices use ROUND_HALF_UP; order lines and discounts use the default context, which sends a half
  // to the even neighbour. Every amount quantised here is non-negative.

  function HalfUp(num: nat, den: int): (r: nat)
    requires den > 0
    ensures -den < 2 * (den * r - num) <= den
  {
    DivisionBounds(2 * num + den, 2 * den);
    (2 * num + den) / (2 * den)
  }

  function HalfEven(num: nat, den: int): (r: nat)
    requires den > 0
    ensures -den <= 2 * (den * r - num) <= den
    ensures 2 * (den * r - num) == den || 2 * (den * r - num) == -den ==> r % 2 == 0
  {
    DivisionBounds(num, den);
    var q := num / den;
    var rest := num - den * q;
    assert den * (q + 1) == den * q + den;
    if 2 * rest < den || (2 * rest == den && q % 2 == 0) then q else q + 1
  }

  lemma {:induction false} DivisionBounds(num: nat, den: int)
    requires den > 0
    ensures num / den >= 0
    ensures 0 <= num - den * (num / den) < den
  {
    assert num == den * (num / den) + num % den;
  }

  /** Both modes keep the order of their inputs. */
  lemma {:induction false} RoundingMonotone(a: nat, b: nat, den: int)
    requires den > 0 && a <= b
    ensures HalfUp(a, den) <= HalfUp(b, den)
    ensures HalfEven(a, den) <= HalfEven(b, den)
  {
    var x, y := HalfUp(a, den), HalfUp(b, den);
    if y < x {
      ProductGap(x, y, den);
    }
    var u, v := HalfEven(a, den), HalfEven(b, den);
    if v < u {
      ProductGap(u, v, den);
    }
  }

  /** An amount that already has the target precision is unchanged by either mode. */
  lemma {:induction false} RoundingExact(k: nat, den: int)
    requires den > 0
    ensures k * den >= 0 && HalfUp(k * den, den) == k && HalfEven(k * den, den) == k
  {
    assert k * den >= 0;
    Pinned(HalfUp(k * den, den), k, den);
    Pinned(HalfEven(k * den, den), k, den);
  }

  lemma {:induction false} ProductGap(x: int, y: int, den: int)
    requires den > 0 && y < x
    ensures den * x >= den * y + den
  {
    assert den * x == den * (y + 1) + den * (x - y - 1);
    assert den * (y + 1) == den * y + den;
    NonNegativeProduct(den, x - y - 1);
  }

  lemma {:induction false} NonNegativeProduct(a: int, b: int)
    requires a >= 0 && b >= 0
    ensures a * b >= 0
  {
  }

  lemma {:induction false} Pinned(r: int, k: int, den: int)
    requires den > 0
    requires -den <= 2 * (den * r - k * den) <= den
    ensures r == k
  {
    if r > k {
      ProductGap(r, k, den);
    } else if r < k {
      ProductGap(k, r, den);
    }
  }
}
