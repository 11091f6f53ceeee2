/** The iterator object built by `create` and the `range` factory.

    The iterator keeps its cursor in mutable state: `curr` and `count` change
    on every production call, while `last`, `rev` and `stepSize` are fixed for
    the life of an instance. `clone`, `rev` and `step` never touch the receiver;
    they allocate a new instance from its current cursor. */
module RangeIter {
  import opened RangeSpec

  /** What a production call returns: a value, or the completion signal
      carrying the number of values produced so far. */
  datatype IterResult = IterResult(value: int, done: bool)

  class RangeIterator {
    var curr: int
    var count: nat
    const last: int
    const rev: bool
    const stepSize: int

    /** The values still to be produced, in order. */
    ghost function Values(): seq<int>
      reads this
      requires stepSize >= 1
    {
      Produced(curr, last, rev, stepSize)
    }

    /** A fresh cursor; `count` starts at zero. */
    constructor Create(curr: int, last: int, rev: bool, step: int)
      ensures this.curr == curr && this.last == last && this.rev == rev
      ensures stepSize == step && count == 0
    {
      this.curr := curr;
      this.last := last;
      this.rev := rev;
      this.stepSize := step;
      this.count := 0;
    }

    /** Exhausted: nothing is left to produce. */
    predicate Empty()
      reads this
      ensures Empty() <==> !Contains(curr)
      ensures stepSize >= 1 ==> (Empty() <==> Values() == [])
    {
      Exhausted(curr, last, rev)
    }

    /** Membership in the part of the interval not yet consumed; the live
        cursor is used, so membership narrows as values are produced. */
    predicate Contains(x: int)
      reads this
      ensures Contains(x) <==> !Exhausted(curr, last, rev) &&
                               (curr <= x <= last || last <= x <= curr)
    {
      Between(curr, last, rev, x)
    }

    /** The remaining length, computed as the source computes it: the distance
        from the cursor up to the final bound, regardless of step and direction.
        Its contract states the case the tests rely on, an ascending step-1 cursor
        that has not run past `last + 1`; LenExactIff lists every case where it
        is the number of values left, and LenMisstatesCount shows some where it is not. */
    function Len(): (r: int)
      reads this
      ensures !rev && stepSize == 1 && curr <= last + 1 ==> r == ExactLen()
    {
      last - curr + 1
    }

    /** The number of values still to be produced, for any direction and step. */
    function ExactLen(): (n: nat)
      reads this
      requires stepSize >= 1
      ensures n == |Values()|
    {
      SpanIsLength(curr, last, rev, stepSize);
      Span(curr, last, rev, stepSize)
    }

    /** One production step. */
    method Next() returns (r: IterResult)
      modifies this
      ensures r.done == old(Empty())
      ensures r.done ==> r.value == count && curr == old(curr) && count == old(count)
      ensures !r.done ==> r.value == old(curr) && count == old(count) + 1 &&
                          curr == Advance(old(curr), rev, stepSize)
      ensures stepSize >= 1 ==> old(Values()) == if r.done then [] else [r.value] + Values()
    {
      if Empty() {
        return IterResult(count, true);
      }
      count := count + 1;
      var value := curr;
      curr := Advance(curr, rev, stepSize);
      return IterResult(value, false);
    }

    /** An independent copy of the current cursor. */
    method Clone() returns (c: RangeIterator)
      ensures fresh(c)
      ensures c.curr == curr && c.last == last && c.rev == rev && c.stepSize == stepSize
      ensures c.count == 0
      ensures stepSize >= 1 ==> c.Values() == Values()
    {
      c := new RangeIterator.Create(curr, last, rev, stepSize);
    }

    /** A new descending iterator from `last` back to the current cursor. */
    method Rev() returns (c: RangeIterator)
      ensures fresh(c)
      ensures c.curr == last && c.last == curr && c.rev && c.stepSize == stepSize
      ensures c.count == 0
      ensures !rev && stepSize == 1 ==> c.Values() == Reverse(Values())
      ensures rev && curr > last ==> c.Empty()
    {
      c := new RangeIterator.Create(last, curr, true, stepSize);
      if !rev && stepSize == 1 {
        ReverseUnit(curr, last);
      }
    }

    /** An independent copy of the current cursor with a new step. */
    method Step(n: int) returns (c: RangeIterator)
      ensures fresh(c)
      ensures c.curr == curr && c.last == last && c.rev == rev && c.stepSize == n
      ensures c.count == 0
    {
      c := new RangeIterator.Create(curr, last, rev, n);
    }
  }

  /** The factory: validates the normalised bounds and builds an ascending
      iterator with step 1, or reports the normalised pair. */
  method Range(start: int, end: int, inclusive: bool) returns (r: Result<RangeIterator, Bounds>)
    ensures r.Err? <==> Validate(start, end, inclusive).Err?
    ensures r.Err? ==> r.error == Validate(start, end, inclusive).error
    ensures r.Ok? ==> fresh(r.value) && r.value.count == 0 &&
                      r.value.curr == start && r.value.last == Validate(start, end, inclusive).value.last &&
                      !r.value.rev && r.value.stepSize == 1
    ensures r.Ok? ==> r.value.Values() == Interval(start, end, inclusive)
  {
    var v := Validate(start, end, inclusive);
    if v.Err? {
      return Err(v.error);
    }
    var it := new RangeIterator.Create(v.value.first, v.value.last, false, 1);
    ValidatedYieldsInterval(start, end, inclusive);
    return Ok(it);
  }

  /** Consumes an iterator by calling Next until it signals completion, as a
      `for ... of` loop does; returns the values seen and the completion value. */
  method Drain(it: RangeIterator) returns (xs: seq<int>, terminal: int)
    requires it.stepSize >= 1
    modifies it
    ensures xs == old(it.Values())
    ensures terminal == it.count == old(it.count) + |xs|
    ensures it.curr == if it.rev then old(it.curr) - |xs| * it.stepSize else old(it.curr) + |xs| * it.stepSize
    ensures it.Empty()
  {
    xs := [];
    var r := it.Next();
    while !r.done
      invariant if r.done then old(it.Values()) == xs else old(it.Values()) == xs + [r.value] + it.Values()
      invariant r.done ==> it.Empty() && r.value == it.count
      invariant it.count == old(it.count) + |xs| + (if r.done then 0 else 1)
      invariant it.curr == Shift(old(it.curr), it.rev, it.stepSize, |xs| + if r.done then 0 else 1)
      decreases |it.Values()| + (if r.done then 0 else 1)
    {
      xs := xs + [r.value];
      r := it.Next();
    }
    ShiftClosedForm(old(it.curr), it.rev, it.stepSize, |xs|);
    terminal := r.value;
  }

  // ---------------------------------------------------------------------------
  // Properties of len and contains

  /** `len()` equals the number of values left in exactly three cases: the ascending
      step-1 cursor with `curr <= last + 1` of Len's own contract, any cursor standing on
      its final bound, and an ascending cursor with any step one past its final bound.
      In every other case it differs: for instance `range(10, 5)`, a reversed cursor
      off its bound, or a step of two or more with at least two values left. */
  lemma LenExactIff(it: RangeIterator)
    requires it.stepSize >= 1
    ensures it.Len() == it.ExactLen() <==>
            (!it.rev && it.stepSize == 1 && it.curr <= it.last + 1) ||
            it.curr == it.last ||
            (!it.rev && it.curr == it.last + 1)
  {
  }

  /** For a non-empty ascending iterator with any step, len never understates the count. */
  lemma LenBoundsAscending(it: RangeIterator)
    requires !it.rev && it.stepSize >= 1 && !it.Empty()
    ensures it.Len() >= |it.Values()| >= 1
  {
    SpanIsLength(it.curr, it.last, false, it.stepSize);
    var d := it.last - it.curr;
    var q, r := d / it.stepSize, d % it.stepSize;
    assert d == q * it.stepSize + r;
    if q >= 1 {
      MulAtLeast(it.stepSize, q);
    }
  }

  /** Every value still to be produced is contained. */
  lemma ValuesContained(it: RangeIterator, x: int)
    requires it.stepSize >= 1 && x in it.Values()
    ensures it.Contains(x)
  {
    ProducedWithin(it.curr, it.last, it.rev, it.stepSize, x);
  }

  /** With step 1, contains holds exactly of the values still to be produced. */
  lemma ContainsIffProducedUnit(it: RangeIterator, x: int)
    requires it.stepSize == 1
    ensures it.Contains(x) <==> x in it.Values()
  {
    if it.Contains(x) {
      UnitStepCovers(it.curr, it.last, it.rev, x);
    }
    if x in it.Values() {
      ProducedWithin(it.curr, it.last, it.rev, 1, x);
    }
  }
}
