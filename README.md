# iterable_range in Dafny

A model of `iterable_range`, a lazy integer range iterator after Rust's `a..b`,
`a..=b` and `.rev()`. The factory `range(start, end, inclusive)` turns an exclusive
end into an inclusive one by subtracting one. It rejects the adjusted bounds unless
both are greater than -1, and builds an ascending iterator with step 1. The
iterator built by `create(curr, last, rev, step)` keeps a cursor (`curr`), an
inclusive final bound (`last`), a direction flag (`rev`), a step and a count of
values produced. `next()` produces values until the cursor passes `last`. After
that it keeps returning `{value: count, done: true}`. `empty()`, `contains(x)` and
`len()` read the live cursor. `clone()`, `rev()` and `step(n)` build new,
independent iterators from it.

Files:

- `range_spec.dfy` (module `RangeSpec`): value-level reference definitions.
  - `Produced` is the sequence of values that repeated production calls yield from a cursor.
  - `Span` is the closed-form number of those values.
  - `Validate` is `range`'s normalisation and validation.
  - The lemmas relate these definitions to one another.
- `range_iterator.dfy` (module `RangeIter`):
  - the class `RangeIterator`, whose fields `curr` and `count` change in place and whose fields `last`, `rev` and `stepSize` are constant;
  - the factory `Range`;
  - `Drain`, the loop of `next()` calls that `for ... of` performs;
  - lemmas about `len()` and `contains()`.
- `range_examples.dfy` (module `RangeExamples`): the in-source test cases, each stated as the contract of a member.

`RangeIterator.Values()` is the ghost list of values the iterator has yet to produce. Every production call is specified against it.

## Model

| member | source | states |
|---|---|---|
| RangeSpec.Validate | src/index.ts:41-47 | succeeds exactly when `start >= 0` and the end is non-negative (inclusive) or at least 1 (exclusive); success and failure both carry `start` and the end made inclusive |
| RangeSpec.ValidatedYieldsInterval | src/index.ts:41-49 | a validated range, iterated ascending with step 1 from the adjusted bounds, yields exactly the integers from `start` up to `end`, with `end` included only when inclusive |
| RangeSpec.SpanIsLength | src/index.ts:14-15 | from any cursor with step >= 1, the number of values produced is 0 when exhausted, else the distance to `last` divided by the step, plus one |
| RangeSpec.ShiftClosedForm | src/index.ts:14 | a cursor that has produced n values has moved `n*step` from where it started: up when ascending, down when descending |
| RangeSpec.ProducedAt | src/index.ts:14 | the k-th value produced is `curr + k*step` when ascending and `curr - k*step` when descending |
| RangeSpec.ProducedWithin | src/index.ts:14-16 | every value produced lies between the cursor and `last` in the iterator's direction |
| RangeSpec.UnitStepCovers | src/index.ts:14-16 | with step 1, every integer between the cursor and `last` is produced |
| RangeSpec.DescendingSnoc | src/index.ts:14-15 | with step 1, counting down from `hi` to `lo` yields the countdown to `lo + 1` followed by `lo` |
| RangeSpec.ReverseUnit | src/index.ts:34 | with step 1, the descending run from `hi` to `lo` is the ascending run from `lo` to `hi` in reverse order |
| RangeSpec.ProducedAscendingUnit | src/index.ts:13-30 | with step 1, an ascending cursor yields the consecutive integers `curr, curr+1, ..., last`, or nothing when `curr > last` |
| RangeIter.RangeIterator.Create | src/index.ts:13-17 | a new iterator holds the given cursor, bound, direction and step, and its count is 0 |
| RangeIter.RangeIterator.Empty | src/index.ts:15 | empty exactly when the cursor itself is not contained, and (step >= 1) exactly when no value is left to produce |
| RangeIter.RangeIterator.Contains | src/index.ts:16 | holds exactly when the iterator is not exhausted and `x` lies between `curr` and `last`, whichever of the two is smaller |
| RangeIter.RangeIterator.Len | src/index.ts:32 | `len()` as written returns `last - curr + 1` whatever the direction and step. Its contract states that this is the number of values left for an ascending step-1 cursor with `curr <= last + 1`, the only case the tests use. The partner lemma LenExactIff lists every case where it is exact, LenBoundsAscending bounds it for ascending cursors, and LenMisstatesCount shows where it goes wrong |
| RangeIter.RangeIterator.ExactLen | src/index.ts:32 | corrected length: the number of values still to be produced, for any direction and any step >= 1 |
| RangeIter.RangeIterator.Next | src/index.ts:23-31 | when empty: returns `(count, done)` and changes nothing. Otherwise: returns the old cursor, moves it one step in its direction and adds 1 to the count. The values left before the call are the value returned followed by the values left after it |
| RangeIter.RangeIterator.Clone | src/index.ts:33 | a fresh iterator with the same cursor, bound, direction and step and count 0; it has the same values left to produce |
| RangeIter.RangeIterator.Rev | src/index.ts:34 | a fresh descending iterator from `last` back to the cursor with the same step and count 0. From an ascending step-1 iterator it yields the remaining values in reverse. Reversing a non-exhausted descending iterator with `curr > last` gives an empty one |
| RangeIter.RangeIterator.Step | src/index.ts:35 | a fresh iterator with the same cursor, bound and direction, the new step and count 0 |
| RangeIter.Range | src/index.ts:41-50 | fails exactly when `Validate` fails, carrying the adjusted pair. Otherwise it returns a fresh ascending step-1 iterator at `start` with count 0 that yields exactly the integers of the interval |
| RangeIter.Drain | src/index.ts:162-171 | calling `next()` until done yields exactly the values that were left. The completion value equals the count, which grew by the number of values yielded. The cursor ends up moved `|xs|*step` in its direction, and the iterator ends empty |
| RangeIter.LenExactIff | src/index.ts:32 | for any step >= 1, `len()` equals the number of values left if and only if the cursor is ascending with step 1 and `curr <= last + 1`, or `curr == last` in either direction, or the cursor is ascending with `curr == last + 1` |
| RangeIter.LenBoundsAscending | src/index.ts:32 | for a non-empty ascending iterator with any step >= 1, `len()` is at least the number of values left, which is at least 1 |
| RangeIter.ValuesContained | src/index.ts:16 | every value still to be produced satisfies `contains` |
| RangeIter.ContainsIffProducedUnit | src/index.ts:16 | with step 1, `contains(x)` holds if and only if `x` is still to be produced |
| RangeExamples.InvalidArguments | src/index.ts:58-62 | `range(0,0)`, `range(-1,10)` and `range(-1,0)` fail, reporting `(0,-1)`, `(-1,9)` and `(-1,-1)` |
| RangeExamples.EmptyCases | src/index.ts:64-71 | `empty()` for the six cases of the test: only `range(10,5)` is empty |
| RangeExamples.ContainsCases | src/index.ts:73-87 | `contains()` for the twelve cases of the test, forward and reversed |
| RangeExamples.LenWhileConsuming | src/index.ts:89-98 | `range(0,10).len()` is 10. `range(1,10,true).len()` is 10 at the start and 5 once 5 has been produced |
| RangeExamples.DrainCases | src/index.ts:100-130 | draining `0..5`, `0..=5`, `0..1` and `range(0,1,true)` yields `[0..4]`, `[0..5]`, `[0]` and `[0,1]` |
| RangeExamples.ReversedDrain | src/index.ts:132-138 | draining `range(1,5,true).rev()` yields `[5,4,3,2,1]` |
| RangeExamples.CloneIndependence | src/index.ts:140-152 | draining `range(0,5)` and then a clone taken before the drain yields `[0..4]` twice |
| RangeExamples.SteppedDrain | src/index.ts:154-160 | draining `range(1,10).step(2)` yields `[1,3,5,7,9]` |
| RangeExamples.NextUntilDone | src/index.ts:162-172 | calling `next()` on `range(0,5)` until done yields `[0..4]` and the completion value 5. A further call returns `(5, done)` again, and `len()` is then 0 |
| RangeExamples.LenMisstatesCount | src/index.ts:32 | `len()` is -3 for `5` counting down to `1`, which has 5 values left. It is 9 for `1..=9` with step 2, which also has 5 values left. It is -5 for the ascending step-1 cursor of `range(10,5)`, which has no values left |

Where the in-source tests and their names disagree, the model follows the code. The test named `0..=0` calls `range(0, 1, true)`, which yields `[0, 1]`. Like the code, the model never requires the step to be positive. Only draining, and every statement about the values left, needs `step >= 1`.

## Left out

- The default arguments of `range` (`start = 0`, `end = Infinity`, `inclusive = false`) and of `create` (`rev` undefined, `step = 1`): every argument is passed explicitly. The unbounded end is a floating-point sentinel and is not modelled.
- Non-integer and NaN inputs and JavaScript number semantics: every value is an unbounded `int`.
- The text of the `RangeError` message: the failure carries the adjusted `(start, end)` pair instead.
- The `[Symbol.iterator]` self-return: consuming with `for ... of` is modelled as repeated `Next` calls (`Drain`).
- Iterators with `step <= 0`: they can be built (`Step` accepts any integer), but `Values`, `ExactLen` and `Drain` require `step >= 1`, because with a step of 0 or less an iterator that still has values never finishes.
- RangeIter.RangeIterator.Rev: relates the reversed values to the original ones only for an ascending step-1 iterator. With a larger step the reversed run starts at `last`, which the original need not produce.
- The vitest harness and the build configuration.

## Findings

| source | as written | input that shows it | evidently intended | confidence | as-written member | corrected member |
|---|---|---|---|---|---|---|
| src/index.ts:32 | `len()` returns `last - curr + 1` whatever the direction and step | `range(1,5,true).rev()` has 5 values left but `len()` is -3. `range(1,10).step(2)` has 5 values left but `len()` is 9. `range(10,5)` is accepted, ascending with step 1, and has no values left, but `len()` is -5 | the number of values still to be produced, as Rust's `ExactSizeIterator::len` gives for `(1..=5).rev()` and `(1..10).step_by(2)` | medium, not executed; the in-source tests (src/index.ts:89-98) call `len()` only on ascending step-1 ranges with `start <= end`, where `Len`'s contract makes it exact. Otherwise it is exact only when `curr == last`, or when ascending with `curr == last + 1` (RangeIter.LenExactIff) | RangeExamples.LenMisstatesCount | RangeIter.RangeIterator.ExactLen |
