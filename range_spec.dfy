/** Pure reference definitions for the lazy integer range.

    A cursor is the quadruple (curr, last, rev, step) captured by `create`:
    `curr` is the next value to produce, `last` the inclusive final bound,
    `rev` the direction (true = descending) and `step` the distance between
    consecutive values. Everything here is a value-level specification that
    the iterator class in module RangeIter is proved against. */
module RangeSpec {

  datatype Result<T, E> = Ok(value: T) | Err(error: E)

  /** The (start, inclusive last) pair that `range` validates and, on failure, reports. */
  datatype Bounds = Bounds(first: int, last: int)

  /** No value is left between the cursor and the final bound. */
  predicate Exhausted(curr: int, last: int, rev: bool) {
    if rev then curr < last else curr > last
  }

  /** The cursor after one value has been produced. */
  function Advance(curr: int, rev: bool, step: int): int {
    if rev then curr - step else curr + step
  }

  /** x lies in the closed interval between the cursor and the final bound, in the cursor's direction. */
  predicate Between(curr: int, last: int, rev: bool, x: int) {
    if rev then x <= curr && x >= last else x >= curr && x <= last
  }

  /** Distance from the cursor to the final bound, measured in the cursor's direction. */
  function Distance(curr: int, last: int, rev: bool): int {
    if rev then curr - last else last - curr
  }

  /** The cursor after n values have been produced. */
  function Shift(curr: int, rev: bool, step: int, n: nat): int {
    if n == 0 then curr else Advance(Shift(curr, rev, step, n - 1), rev, step)
  }

  /** Producing n values moves the cursor n steps in its direction. */
  lemma {:induction false} ShiftClosedForm(curr: int, rev: bool, step: int, n: nat)
    ensures Shift(curr, rev, step, n) == if rev then curr - n * step else curr + n * step
  {
    if n > 0 {
      ShiftClosedForm(curr, rev, step, n - 1);
      assert (n - 1) * step + step == n * step;
    }
  }

  /** The values repeated production calls yield from this cursor, in order. */
  function Produced(curr: int, last: int, rev: bool, step: int): seq<int>
    requires step >= 1
    decreases Distance(curr, last, rev) + 1
  {
    if Exhausted(curr, last, rev) then []
    else [curr] + Produced(Advance(curr, rev, step), last, rev, step)
  }

  /** Number of values left, in closed form. */
  function Span(curr: int, last: int, rev: bool, step: int): nat
    requires step >= 1
  {
    if Exhausted(curr, last, rev) then 0 else Distance(curr, last, rev) / step + 1
  }

  function Reverse(s: seq<int>): (r: seq<int>)
    ensures |r| == |s|
  {
    if s == [] then [] else Reverse(s[1..]) + [s[0]]
  }

  /** The integers from `start` up to `end`, including `end` only when `inclusive`. */
  function Interval(start: int, end: int, inclusive: bool): seq<int>
  {
    var n := (if inclusive then end + 1 else end) - start;
    if n <= 0 then [] else seq(n, i => start + i)
  }

  /** `range`'s normalisation and validation: an exclusive end becomes inclusive by
      subtracting one, and the adjusted pair is rejected unless both are greater than -1. */
  function Validate(start: int, end: int, inclusive: bool): (r: Result<Bounds, Bounds>)
    ensures r.Ok? <==> 0 <= start && (if inclusive then 0 <= end else 1 <= end)
    ensures var b := if r.Ok? then r.value else r.error;
            b.first == start && b.last + (if inclusive then 0 else 1) == end
  {
    var last := if inclusive then end else end - 1;
    if start > -1 && last > -1 then Ok(Bounds(start, last)) else Err(Bounds(start, last))
  }

  // ---------------------------------------------------------------------------
  // Arithmetic helpers

  lemma DivUnique(a: int, s: int, q: int, r: int)
    requires s >= 1 && 0 <= r < s && a == q * s + r
    ensures a / s == q
  {
    var q', r' := a / s, a % s;
    assert a == q' * s + r';
    if q' < q {
      assert (q - q') * s == r' - r;
      MulAtLeast(q - q', s);
    } else if q' > q {
      assert (q' - q) * s == r - r';
      MulAtLeast(q' - q, s);
    }
  }

  lemma MulAtLeast(k: int, s: int)
    requires k >= 1 && s >= 1
    ensures k * s >= s
  {
    assert k * s == (k - 1) * s + s;
  }

  lemma DivStep(d: int, s: int)
    requires 1 <= s <= d
    ensures (d - s) / s == d / s - 1
  {
    var q, r := d / s, d % s;
    assert d - s == (q - 1) * s + r;
    DivUnique(d - s, s, q - 1, r);
  }

  // ---------------------------------------------------------------------------
  // Properties of the produced sequence

  /** The closed-form count is the number of values production yields. */
  lemma {:induction false} SpanIsLength(curr: int, last: int, rev: bool, step: int)
    requires step >= 1
    ensures |Produced(curr, last, rev, step)| == Span(curr, last, rev, step)
    decreases Distance(curr, last, rev) + 1
  {
    if !Exhausted(curr, last, rev) {
      var next := Advance(curr, rev, step);
      var d := Distance(curr, last, rev);
      SpanIsLength(next, last, rev, step);
      if Exhausted(next, last, rev) {
        DivUnique(d, step, 0, d);
      } else {
        assert Distance(next, last, rev) == d - step;
        DivStep(d, step);
      }
    }
  }

  /** The k-th produced value is the start moved k steps in the cursor's direction. */
  lemma {:induction false} ProducedAt(curr: int, last: int, rev: bool, step: int, k: int)
    requires step >= 1 && 0 <= k < |Produced(curr, last, rev, step)|
    ensures Produced(curr, last, rev, step)[k] == if rev then curr - k * step else curr + k * step
    decreases Distance(curr, last, rev) + 1
  {
    if k > 0 {
      ProducedAt(Advance(curr, rev, step), last, rev, step, k - 1);
      assert (k - 1) * step + step == k * step;
    }
  }

  /** Every produced value lies between the cursor and the final bound. */
  lemma {:induction false} ProducedWithin(curr: int, last: int, rev: bool, step: int, x: int)
    requires step >= 1 && x in Produced(curr, last, rev, step)
    ensures Between(curr, last, rev, x)
    decreases Distance(curr, last, rev) + 1
  {
    if x != curr {
      ProducedWithin(Advance(curr, rev, step), last, rev, step, x);
    }
  }

  /** With step 1 nothing between the cursor and the bound is skipped. */
  lemma {:induction false} UnitStepCovers(curr: int, last: int, rev: bool, x: int)
    requires Between(curr, last, rev, x)
    ensures x in Produced(curr, last, rev, 1)
    decreases Distance(curr, last, rev) + 1
  {
    if x != curr {
      UnitStepCovers(Advance(curr, rev, 1), last, rev, x);
    }
  }

  /** Counting down from hi to lo is counting down to lo + 1 and then producing lo. */
  lemma {:induction false} DescendingSnoc(hi: int, lo: int)
    requires lo <= hi
    ensures Produced(hi, lo, true, 1) == Produced(hi, lo + 1, true, 1) + [lo]
    decreases hi - lo
  {
    if hi > lo {
      DescendingSnoc(hi - 1, lo);
    }
  }

  /** With step 1, the descending run from hi to lo is the ascending run from lo to hi reversed. */
  lemma {:induction false} ReverseUnit(lo: int, hi: int)
    ensures Produced(hi, lo, true, 1) == Reverse(Produced(lo, hi, false, 1))
    decreases hi - lo + 1
  {
    if lo <= hi {
      var up := Produced(lo, hi, false, 1);
      assert up[1..] == Produced(lo + 1, hi, false, 1);
      ReverseUnit(lo + 1, hi);
      DescendingSnoc(hi, lo);
    }
  }

  /** With step 1 the ascending run from curr to last is the consecutive integers. */
  lemma ProducedAscendingUnit(curr: int, last: int)
    ensures Produced(curr, last, false, 1) == if curr > last then [] else seq(last - curr + 1, i => curr + i)
  {
    var p := Produced(curr, last, false, 1);
    SpanIsLength(curr, last, false, 1);
    if curr <= last {
      forall k | 0 <= k < |p| ensures p[k] == curr + k {
        ProducedAt(curr, last, false, 1, k);
      }
    }
  }

  /** A validated range yields exactly the integers of its interval. */
  lemma ValidatedYieldsInterval(start: int, end: int, inclusive: bool)
    requires Validate(start, end, inclusive).Ok?
    ensures var b := Validate(start, end, inclusive).value;
            Produced(b.first, b.last, false, 1) == Interval(start, end, inclusive)
  {
    var b := Validate(start, end, inclusive).value;
    ProducedAscendingUnit(b.first, b.last);
  }
}
