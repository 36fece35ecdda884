/** The circular walk over the channel buffers of dma-proxy-test.c: a ring of `count` buffers is
    visited in steps of `d`, so `Slots(count, d)` buffers take part. */
module Ring {

  /** The setting the test program needs: the increment divides the ring size. */
  predicate IsRing(count: nat, d: nat) {
    0 < d && 0 < count && count % d == 0
  }

  /** How many buffers one turn of the ring visits. */
  function Slots(count: nat, d: nat): (n: nat)
    requires IsRing(count, d)
    ensures 0 < n <= count
  {
    SlotsTimesIncrement(count, d);
    count / d
  }

  /** The buffer index after `k` advances by `d` around the ring. */
  function BufferAt(k: nat, count: nat, d: nat): (b: nat)
    requires IsRing(count, d)
    ensures b < count
  {
    if k == 0 then 0 else Advance(BufferAt(k - 1, count, d), count, d)
  }

  function Advance(b: nat, count: nat, d: nat): (b': nat)
    requires IsRing(count, d) && b < count
    ensures b' < count
  {
    IncrementFits(count, d);
    if b + d < count then b + d else b + d - count
  }

  lemma SlotsTimesIncrement(count: nat, d: nat)
    requires IsRing(count, d)
    ensures (count / d) * d == count
    ensures 0 < count / d <= count
  {
    var n := count / d;
    DivisionLaw(count, d);
    if 0 < n {
      MulMonotone(1, d, n);
    }
  }

  lemma DivisionLaw(x: nat, m: nat)
    requires 0 < m
    ensures x == (x / m) * m + x % m
    ensures x % m < m
  {
  }

  lemma IncrementFits(count: nat, d: nat)
    requires IsRing(count, d)
    ensures d <= count
  {
  }

  /** The advance is what the loops compute: `buffer_id += d; buffer_id %= count`. */
  lemma Flip(k: nat, count: nat, d: nat)
    requires IsRing(count, d)
    ensures (BufferAt(k, count, d) + d) % count == BufferAt(k + 1, count, d)
  {
    var x := BufferAt(k, count, d) + d;
    IncrementFits(count, d);
    DivModUnique(x, count, if x < count then 0 else 1, BufferAt(k + 1, count, d));
  }

  /** Position `k` of the walk is buffer `k * d` modulo the ring size. */
  lemma BufferAtClosedForm(k: nat, count: nat, d: nat)
    requires IsRing(count, d)
    ensures BufferAt(k, count, d) == (k * d) % count
  {
    var turns := WholeTurns(k, count, d);
    DivModUnique(k * d, count, turns, BufferAt(k, count, d));
  }

  lemma {:induction false} WholeTurns(k: nat, count: nat, d: nat) returns (turns: nat)
    requires IsRing(count, d)
    ensures k * d == turns * count + BufferAt(k, count, d)
  {
    if k == 0 {
      turns := 0;
    } else {
      turns := WholeTurns(k - 1, count, d);
      Distribute(k - 1, 1, d);
      if BufferAt(k - 1, count, d) + d >= count {
        Distribute(turns, 1, count);
        turns := turns + 1;
      }
    }
  }

  lemma Distribute(x: nat, y: nat, d: nat)
    ensures (x + y) * d == x * d + y * d
  {
  }

  lemma DivModUnique(x: nat, m: nat, q: nat, r: nat)
    requires 0 < m && r < m && x == q * m + r
    ensures x % m == r && x / m == q
  {
    var q' := x / m;
    DivisionLaw(x, m);
    if q < q' {
      MulMonotone(q + 1, q', m);
      Distribute(q, 1, m);
    } else if q' < q {
      MulMonotone(q' + 1, q, m);
      Distribute(q', 1, m);
    }
  }

  /** During the first turn no wrap happens. */
  lemma FirstTurn(k: nat, count: nat, d: nat)
    requires IsRing(count, d) && k < Slots(count, d)
    ensures BufferAt(k, count, d) == k * d
    ensures k * d + d <= count
  {
    SlotsTimesIncrement(count, d);
    var n := Slots(count, d);
    BufferAtClosedForm(k, count, d);
    Distribute(k, 1, d);
    MulMonotone(k + 1, n, d);
    DivModUnique(k * d, count, 0, k * d);
  }

  lemma MulMonotone(a: nat, b: nat, d: nat)
    requires a <= b
    ensures a * d <= b * d
  {
    Distribute(a, b - a, d);
  }

  /** The priming loop's exit test: adding the increment leaves the ring exactly after the last slot. */
  lemma PrimingAdvance(k: nat, count: nat, d: nat)
    requires IsRing(count, d) && k < Slots(count, d)
    ensures BufferAt(k, count, d) + d < count <==> k + 1 < Slots(count, d)
    ensures k + 1 < Slots(count, d) ==> BufferAt(k + 1, count, d) == BufferAt(k, count, d) + d
  {
    FirstTurn(k, count, d);
    SlotsTimesIncrement(count, d);
    if k + 1 < Slots(count, d) {
      FirstTurn(k + 1, count, d);
      Distribute(k, 1, d);
    } else {
      Distribute(k, 1, d);
    }
  }

  /** After one whole turn the walk is back at the same buffer. */
  lemma {:induction false} Period(k: nat, count: nat, d: nat)
    requires IsRing(count, d)
    ensures BufferAt(k + Slots(count, d), count, d) == BufferAt(k, count, d)
  {
    var n := Slots(count, d);
    SlotsTimesIncrement(count, d);
    if k == 0 {
      BufferAtClosedForm(n, count, d);
      DivModUnique(n * d, count, 1, 0);
    } else {
      Period(k - 1, count, d);
      assert k + n - 1 == k - 1 + n;
    }
  }

  /** Fewer than one turn apart, positions name different buffers. */
  lemma {:induction false} Distinct(j: nat, k: nat, count: nat, d: nat)
    requires IsRing(count, d) && j < k < j + Slots(count, d)
    ensures BufferAt(j, count, d) != BufferAt(k, count, d)
  {
    var n := Slots(count, d);
    if j >= n {
      Period(j - n, count, d);
      Period(k - n, count, d);
      Distinct(j - n, k - n, count, d);
    } else if k < n {
      FirstTurn(j, count, d);
      FirstTurn(k, count, d);
      MulMonotone(j + 1, k, d);
      Distribute(j, 1, d);
    } else {
      Period(k - n, count, d);
      FirstTurn(j, count, d);
      FirstTurn(k - n, count, d);
      MulMonotone(k - n + 1, j, d);
      Distribute(k - n, 1, d);
    }
  }
}
