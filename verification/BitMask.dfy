/** Masks and shifts on unsigned numbers, as the hash table uses them in place of
    remainders and divisions by its power-of-two bucket count. */
module BitMask {

  function Pow2(k: nat): (p: nat)
    ensures p > 0
  {
    if k == 0 then 1 else 2 * Pow2(k - 1)
  }

  /** Bitwise and. */
  function And(a: nat, b: nat): nat {
    if a == 0 || b == 0 then 0
    else 2 * And(a / 2, b / 2) + (if a % 2 == 1 && b % 2 == 1 then 1 else 0)
  }

  /** Right shift by `k` bits. */
  function Shr(a: nat, k: nat): nat {
    if k == 0 then a else Shr(a / 2, k - 1)
  }

  /** Left shift by `k` bits. */
  function Shl(a: nat, k: nat): nat {
    if k == 0 then a else 2 * Shl(a, k - 1)
  }

  lemma {:induction false} ShlIsProduct(a: nat, k: nat)
    ensures Shl(a, k) == a * Pow2(k)
  {
    if k > 0 {
      ShlIsProduct(a, k - 1);
      Associate(a, Pow2(k - 1));
    }
  }

  lemma Associate(a: nat, p: nat)
    ensures a * (2 * p) == 2 * (a * p)
  {
  }

  lemma {:induction false} ShlSuccessor(a: nat, k: nat)
    ensures Shl(a + 1, k) == Shl(a, k) + Pow2(k)
  {
    if k > 0 {
      ShlSuccessor(a, k - 1);
    }
  }

  /** One step of `And` with an all-ones mask. */
  lemma MaskStep(h: nat, p: nat)
    requires p > 0
    ensures And(h, 2 * p - 1) == 2 * And(h / 2, p - 1) + h % 2
  {
    assert (2 * p - 1) / 2 == p - 1 && (2 * p - 1) % 2 == 1;
  }

  /** Shift and mask take a number apart at bit `k`. */
  lemma {:induction false} SplitAtBit(h: nat, k: nat)
    ensures h == Shl(Shr(h, k), k) + And(h, Pow2(k) - 1)
    ensures And(h, Pow2(k) - 1) < Pow2(k)
  {
    if k > 0 {
      SplitAtBit(h / 2, k - 1);
      MaskStep(h, Pow2(k - 1));
    }
  }

  /** One more mask bit either leaves the masked value or adds the old bucket count to it. */
  lemma {:induction false} WiderMask(h: nat, k: nat)
    ensures var n, b, c := Pow2(k), And(h, Pow2(k) - 1), And(h, 2 * Pow2(k) - 1);
            b < n && (c == b || c == b + n)
  {
    SplitAtBit(h, k);
    MaskStep(h, Pow2(k));
    if k > 0 {
      WiderMask(h / 2, k - 1);
      MaskStep(h, Pow2(k - 1));
    }
  }

  lemma OneMore(q: nat, d: nat)
    ensures (q + 1) * d == q * d + d
  {
  }

  lemma {:induction false} Dominates(q: nat, q': nat, d: nat)
    requires q < q'
    ensures q * d + d <= q' * d
  {
    OneMore(q' - 1, d);
    if q + 1 < q' {
      Dominates(q, q' - 1, d);
    }
  }

  lemma Division(a: nat, d: nat)
    requires d > 0
    ensures a == (a / d) * d + a % d && a % d < d
  {
  }

  lemma QuotientIsUnique(a: nat, d: nat, q: nat, r: nat, q': nat, r': nat)
    requires r < d && r' < d && a == q * d + r && a == q' * d + r'
    ensures q == q' && r == r'
  {
    if q < q' {
      Dominates(q, q', d);
    } else if q' < q {
      Dominates(q', q, d);
    }
  }

  lemma DivisionIs(a: nat, d: nat, q: nat, r: nat)
    requires r < d && a == q * d + r
    ensures a / d == q && a % d == r
  {
    Division(a, d);
    QuotientIsUnique(a, d, q, r, a / d, a % d);
  }

  /** Masking with 2^k - 1 is the remainder modulo 2^k, shifting by k the quotient. */
  lemma MaskIsModulus(h: nat, k: nat)
    ensures And(h, Pow2(k) - 1) == h % Pow2(k) && Shr(h, k) == h / Pow2(k)
  {
    SplitAtBit(h, k);
    ShlIsProduct(Shr(h, k), k);
    DivisionIs(h, Pow2(k), Shr(h, k), And(h, Pow2(k) - 1));
  }

  /** The shift-and-mask form of the ceiling of a / 2^k. */
  function CeilShift(a: nat, k: nat): nat {
    Shr(a, k) + (if And(a, Pow2(k) - 1) != 0 then 1 else 0)
  }

  /** It is the least multiplier that reaches `a`. */
  lemma CeilShiftIsCeiling(a: nat, k: nat)
    ensures var c, n := CeilShift(a, k), Pow2(k); a <= c * n && (c > 0 ==> (c - 1) * n < a)
    ensures a > 0 ==> CeilShift(a, k) > 0
  {
    var c := CeilShift(a, k);
    SplitAtBit(a, k);
    ShlSuccessor(Shr(a, k), k);
    ShlIsProduct(c, k);
    if c > 0 {
      ShlIsProduct(c - 1, k);
      ShlSuccessor(c - 1, k);
    }
  }
}
