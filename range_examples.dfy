/** The behaviours the repository's in-source tests fix, stated as members
    whose contracts give the expected results, the values the tests' `expect`
    calls require. */
module RangeExamples {
  import opened RangeSpec
  import opened RangeIter

  /** Invalid bounds are reported after the exclusive end has been adjusted. */
  lemma InvalidArguments()
    ensures Validate(0, 0, false) == Err(Bounds(0, -1))
    ensures Validate(-1, 10, false) == Err(Bounds(-1, 9))
    ensures Validate(-1, 0, false) == Err(Bounds(-1, -1))
  {
  }

  /** Builds a range whose bounds are known to be valid. */
  method ValidRange(start: int, end: int, inclusive: bool) returns (it: RangeIterator)
    requires 0 <= start && (if inclusive then 0 <= end else 1 <= end)
    ensures fresh(it) && it.count == 0 && !it.rev && it.stepSize == 1
    ensures it.curr == start && it.last == (if inclusive then end else end - 1)
    ensures it.Values() == Interval(start, end, inclusive)
  {
    var r := Range(start, end, inclusive);
    it := r.value;
  }

  method EmptyCases() returns (results: seq<bool>)
    ensures results == [false, false, true, false, false, false]
  {
    var a := ValidRange(0, 0, true);
    var b := ValidRange(0, 1, false);
    var c := ValidRange(10, 5, false);
    var d := ValidRange(0, 1, true);
    var e := ValidRange(0, 0, true);
    var e' := e.Rev();
    var f := ValidRange(0, 1, false);
    var f' := f.Rev();
    results := [a.Empty(), b.Empty(), c.Empty(), d.Empty(), e'.Empty(), f'.Empty()];
  }

  method ContainsCases() returns (results: seq<bool>)
    ensures results == [false, false, false, false, true, true, false, true, true, true, false, true]
  {
    var a := ValidRange(0, 5, false);
    var b := ValidRange(10, 1, false);
    var c := ValidRange(10, 0, true);
    var d := ValidRange(0, 10, false);
    var e := ValidRange(0, 10, true);
    var dr := d.Rev();
    var er := e.Rev();
    results := [a.Contains(10), a.Contains(-5), b.Contains(5), c.Contains(5),
                d.Contains(0), d.Contains(5), d.Contains(10), e.Contains(10),
                dr.Contains(5), dr.Contains(0), dr.Contains(10), er.Contains(10)];
  }

  /** len() of 1..=10 is 10 at the start and 5 once the value 5 has been produced. */
  method LenWhileConsuming() returns (exclusive: int, initial: int, atFive: int)
    ensures exclusive == 10 && initial == 10 && atFive == 5
  {
    var z := ValidRange(0, 10, false);
    exclusive := z.Len();
    var it := ValidRange(1, 10, true);
    initial := it.Len();
    var r := it.Next();
    r := it.Next();
    r := it.Next();
    r := it.Next();
    r := it.Next();
    assert r.value == 5;
    atFive := it.Len();
  }

  method DrainCases() returns (upTo5: seq<int>, upTo5Inclusive: seq<int>, upTo1: seq<int>, upTo1Inclusive: seq<int>)
    ensures upTo5 == [0, 1, 2, 3, 4]
    ensures upTo5Inclusive == [0, 1, 2, 3, 4, 5]
    ensures upTo1 == [0]
    ensures upTo1Inclusive == [0, 1]
  {
    var a := ValidRange(0, 5, false);
    var b := ValidRange(0, 5, true);
    var c := ValidRange(0, 1, false);
    var d := ValidRange(0, 1, true);
    var n: int;
    upTo5, n := Drain(a);
    upTo5Inclusive, n := Drain(b);
    upTo1, n := Drain(c);
    upTo1Inclusive, n := Drain(d);
  }

  method ReversedDrain() returns (xs: seq<int>)
    ensures xs == [5, 4, 3, 2, 1]
  {
    var it := ValidRange(1, 5, true);
    var r := it.Rev();
    var n: int;
    xs, n := Drain(r);
  }

  /** Draining the original leaves a clone taken beforehand untouched. */
  method CloneIndependence() returns (xs: seq<int>)
    ensures xs == [0, 1, 2, 3, 4, 0, 1, 2, 3, 4]
  {
    var original := ValidRange(0, 5, false);
    var copy := original.Clone();
    var first, second: seq<int>;
    var n: int;
    first, n := Drain(original);
    second, n := Drain(copy);
    xs := first + second;
  }

  method SteppedDrain() returns (xs: seq<int>)
    ensures xs == [1, 3, 5, 7, 9]
  {
    var it := ValidRange(1, 10, false);
    var s := it.Step(2);
    var n: int;
    xs, n := Drain(s);
  }

  /** Driving next() by hand: the completion signal carries the number of values
      produced, and the drained cursor sits one past the end, so len() is 0. */
  method NextUntilDone() returns (xs: seq<int>, terminal: int, again: IterResult, lenAfter: int)
    ensures xs == [0, 1, 2, 3, 4] && terminal == 5
    ensures again == IterResult(5, true)
    ensures lenAfter == 0
  {
    var it := ValidRange(0, 5, false);
    xs, terminal := Drain(it);
    again := it.Next();
    lenAfter := it.Len();
  }

  /** len() as written disagrees with the number of values left once the
      iterator is reversed or stepped, and for an accepted ascending step-1
      range whose start lies above its end (`range(10, 5)`). */
  lemma LenMisstatesCount(reversed: RangeIterator, stepped: RangeIterator, backwards: RangeIterator)
    requires reversed.curr == 5 && reversed.last == 1 && reversed.rev && reversed.stepSize == 1
    requires stepped.curr == 1 && stepped.last == 9 && !stepped.rev && stepped.stepSize == 2
    requires backwards.curr == 10 && backwards.last == 4 && !backwards.rev && backwards.stepSize == 1
    ensures reversed.Len() == -3 && reversed.ExactLen() == 5
    ensures stepped.Len() == 9 && stepped.ExactLen() == 5
    ensures backwards.Len() == -5 && backwards.ExactLen() == 0
  {
  }
}
