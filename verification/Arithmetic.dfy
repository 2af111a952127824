/** Division with remainder, and positions of a stream in a circular buffer. */
module Arithmetic {

  lemma MulMono(x: int, y: int, m: nat)
    requires x < y && 0 < m
    ensures x * m + m <= y * m
    decreases y - x
  {
    assert y * m == x * m + (y - x) * m;
    if y - x > 1 { MulMono(x, y - 1, m); assert y * m == (y - 1) * m + m; }
  }

  lemma DivModUnique(a: int, m: nat, q: int, r: int)
    requires 0 < m && 0 <= r < m && a == q * m + r
    ensures a % m == r && a / m == q
  {
    var q', r' := a / m, a % m;
    assert q' * m + r' == a;
    if q' < q { MulMono(q', q, m); } else if q' > q { MulMono(q, q', m); }
  }

  lemma ModStep(a: nat, d: nat, m: nat)
    requires 0 < m && d <= m
    ensures (a + d) % m == (if a % m + d >= m then a % m + d - m else a % m + d)
  {
    var q, r := a / m, a % m;
    assert a + d == q * m + (r + d);
    if r + d >= m {
      assert a + d == (q + 1) * m + (r + d - m);
      DivModUnique(a + d, m, q + 1, r + d - m);
    } else {
      DivModUnique(a + d, m, q, r + d);
    }
  }

  /** Index in a circular buffer of the byte at position `k` of the stream. */
  function Slot(size: nat, k: nat): (p: nat)
    requires size > 0
    ensures p < size
  {
    k % size
  }

  lemma SlotAdd(size: nat, k: nat, i: nat)
    requires size > 0
    ensures (Slot(size, k) + i) % size == Slot(size, k + i)
  {
    var q, s := k / size, (Slot(size, k) + i) / size;
    var r := (Slot(size, k) + i) % size;
    assert k + i == (q + s) * size + r;
    DivModUnique(k + i, size, q + s, r);
  }

  lemma SlotStep(size: nat, k: nat, d: nat)
    requires size > 0 && d <= size
    ensures Slot(size, k + d) == if Slot(size, k) + d >= size then Slot(size, k) + d - size else Slot(size, k) + d
  {
    ModStep(k, d, size);
  }

  lemma SlotsDiffer(size: nat, j: nat, k: nat)
    requires size > 0 && j < k < j + size
    ensures Slot(size, j) != Slot(size, k)
  {
    ModStep(j, k - j, size);
  }

  lemma SlotOfIndex(size: nat, p: nat)
    requires p < size
    ensures Slot(size, p) == p
  {
    DivModUnique(p, size, 0, p);
  }
}
