/** Schedules of actors, and what is in them apart from one. */
module Schedule {

  /** What is in a schedule apart from one actor. */
  function Without<A(==)>(q: seq<A>, self: A): seq<A> {
    if |q| == 0 then []
    else Without(q[..|q| - 1], self) + if q[|q| - 1] == self then [] else [q[|q| - 1]]
  }

  lemma {:induction false} WithoutAppend<A>(p: seq<A>, q: seq<A>, self: A)
    ensures Without(p + q, self) == Without(p, self) + Without(q, self)
  {
    if |q| == 0 {
      assert p + q == p;
    } else {
      assert (p + q)[..|p + q| - 1] == p + q[..|q| - 1];
      WithoutAppend(p, q[..|q| - 1], self);
    }
  }

  lemma {:induction false} WithoutAbsent<A>(q: seq<A>, self: A)
    requires self !in q
    ensures Without(q, self) == q
  {
    if |q| > 0 {
      WithoutAbsent(q[..|q| - 1], self);
    }
  }

  lemma {:induction false} InWithout<A>(q: seq<A>, self: A, a: A)
    requires a != self && a in q
    ensures a in Without(q, self)
  {
    if a != q[|q| - 1] {
      InWithout(q[..|q| - 1], self, a);
    }
  }

  lemma WithoutOne<A>(q: seq<A>, self: A)
    ensures Without(q + [self], self) == Without(q, self)
  {
    assert (q + [self])[..|q|] == q;
  }

  /** Everything in the batches, in order. */
  function Flat<A>(batches: seq<seq<A>>): seq<A> {
    if |batches| == 0 then [] else batches[0] + Flat(batches[1..])
  }

  lemma {:induction false} NotInFlat<A>(batches: seq<seq<A>>, a: A)
    requires forall i :: 0 <= i < |batches| ==> a !in batches[i]
    ensures a !in Flat(batches)
  {
    if |batches| > 0 {
      NotInFlat(batches[1..], a);
    }
  }

  /** What was taken from the front, with what is left, is everything. */
  lemma FirstPart<A>(taken: seq<A>, left: seq<seq<A>>, all: seq<seq<A>>)
    requires taken + Flat(left) == Flat(all)
    ensures taken <= Flat(all) && (|left| == 0 ==> taken == Flat(all))
  {
    if |left| == 0 {
      assert taken + Flat(left) == taken;
    }
    assert taken == (taken + Flat(left))[..|taken|];
  }

  lemma TakeFirst<A>(taken: seq<A>, batches: seq<seq<A>>)
    requires 0 < |batches|
    ensures (taken + batches[0]) + Flat(batches[1..]) == taken + Flat(batches)
  {
    Regroup(taken, batches[0], Flat(batches[1..]));
  }

  lemma Regroup<A>(a: seq<A>, b: seq<A>, c: seq<A>)
    ensures (a + b) + c == a + (b + c)
  {
  }
}
