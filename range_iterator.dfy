/** The generator `numbers[Symbol.iterator]` of exercises/iterators-generators/ex.fixed.js.
    Called with an options object `{start, stop, step}` (each defaulting on its
    own, and the whole object defaulting to `{}`), it yields start, start+step,
    … for as long as the value does not exceed stop. */
module RangeIterator {
  import opened Wrappers

  /** The options object; a `None` field is an omitted (undefined) option. */
  datatype RangeOptions = RangeOptions(start: Option<int>, stop: Option<int>, step: Option<int>)

  /** The options after the defaults are filled in. */
  datatype Bounds = Bounds(start: int, stop: int, step: int)

  /** `{} ` as an options object: nothing given. */
  const NoOptions := RangeOptions(None, None, None)

  /** The parameter pattern `{ start = 0, stop = 100, step = 1 } = {}`:
      a missing argument is `{}`, then each missing option takes its own default. */
  function Resolve(arg: Option<RangeOptions>): (b: Bounds)
    ensures arg.Some? && arg.value.start.Some? ==> b.start == arg.value.start.value
    ensures arg.Some? && arg.value.stop.Some? ==> b.stop == arg.value.stop.value
    ensures arg.Some? && arg.value.step.Some? ==> b.step == arg.value.step.value
    ensures (arg.None? || arg.value.start.None?) ==> b.start == 0
    ensures (arg.None? || arg.value.stop.None?) ==> b.stop == 100
    ensures (arg.None? || arg.value.step.None?) ==> b.step == 1
  {
    var o := arg.GetOr(NoOptions);
    Bounds(o.start.GetOr(0), o.stop.GetOr(100), o.step.GetOr(1))
  }

  /** The values yielded from `start` upward by `step` while they do not exceed `stop`.
      With start > stop the loop test fails at once, whatever the step; otherwise
      a step that is not positive never lets the loop end, so it is excluded. */
  function Range(start: int, stop: int, step: int): (r: seq<int>)
    requires step > 0 || start > stop
    decreases stop - start
  {
    if start > stop then [] else [start] + Range(start + step, stop, step)
  }

  /** The whole sequence the generator yields for one call. */
  function Yields(arg: Option<RangeOptions>): (r: seq<int>)
    requires Resolve(arg).step > 0 || Resolve(arg).start > Resolve(arg).stop
  {
    var b := Resolve(arg);
    Range(b.start, b.stop, b.step)
  }

  /** Running the generator to completion (as `[...gen]` or `for…of` does),
      collecting what it yields. A step that is not positive makes the source
      loop forever unless start > stop, so only that case is excluded. */
  method Numbers(arg: Option<RangeOptions>) returns (ys: seq<int>)
    requires Resolve(arg).step > 0 || Resolve(arg).start > Resolve(arg).stop
    ensures ys == Yields(arg)
  {
    var b := Resolve(arg);
    var num := b.start;
    ys := [];
    while num <= b.stop
      invariant b.step > 0 || num > b.stop
      invariant ys + Range(num, b.stop, b.step) == Range(b.start, b.stop, b.step)
      decreases b.stop - num
    {
      assert Range(num, b.stop, b.step) == [num] + Range(num + b.step, b.stop, b.step);
      assert ys + [num] + Range(num + b.step, b.stop, b.step) == ys + ([num] + Range(num + b.step, b.stop, b.step));
      ys := ys + [num];
      num := num + b.step;
    }
  }

  /** The number of values: none when start > stop, else (stop - start) / step + 1. */
  lemma {:induction false} RangeLength(start: int, stop: int, step: int)
    requires step > 0
    ensures |Range(start, stop, step)| == if start > stop then 0 else (stop - start) / step + 1
    decreases stop - start
  {
    if start <= stop {
      RangeLength(start + step, stop, step);
      if start + step <= stop {
        assert (stop - start) / step == (stop - (start + step)) / step + 1 by {
          DivShift(stop - start - step, step);
        }
      } else {
        assert (stop - start) / step == 0;
      }
    }
  }

  /** Quotient and remainder are unique. */
  lemma DivUnique(n: int, d: int, q: int, r: int)
    requires d > 0 && 0 <= r < d && n == q * d + r
    ensures n / d == q && n % d == r
  {
    var e := q - n / d;
    assert e * d == n % d - r;
  }

  /** Dividing x + d by d gives one more than dividing x by d. */
  lemma DivShift(x: int, d: int)
    requires x >= 0 && d > 0
    ensures (x + d) / d == x / d + 1
  {
    DivUnique(x + d, d, x / d + 1, x % d);
  }

  /** The k-th value is start + k * step: consecutive values are exactly `step` apart. */
  lemma {:induction false} RangeAt(start: int, stop: int, step: int, k: nat)
    requires step > 0
    requires k < |Range(start, stop, step)|
    ensures Range(start, stop, step)[k] == start + k * step
    decreases stop - start
  {
    if k > 0 {
      RangeAt(start + step, stop, step, k - 1);
    }
  }

  /** The first value is `start` whenever start <= stop; nothing is yielded when start > stop. */
  lemma RangeStartsAtStart(start: int, stop: int, step: int)
    requires step > 0
    ensures start <= stop ==> |Range(start, stop, step)| > 0 && Range(start, stop, step)[0] == start
    ensures start > stop ==> Range(start, stop, step) == []
  {
  }

  /** When start > stop nothing is yielded, whatever the step, even one that is not positive. */
  lemma RangeEmptyPastStop(start: int, stop: int, step: int)
    requires start > stop
    ensures Range(start, stop, step) == []
  {
  }

  /** Consecutive values differ by exactly `step`, so the values strictly increase. */
  lemma RangeSpacing(start: int, stop: int, step: int)
    requires step > 0
    ensures var r := Range(start, stop, step);
            forall k :: 0 <= k < |r| - 1 ==> r[k + 1] == r[k] + step
    ensures var r := Range(start, stop, step);
            forall j, k :: 0 <= j < k < |r| ==> r[j] < r[k]
  {
    var r := Range(start, stop, step);
    forall k | 0 <= k < |r| - 1
      ensures r[k + 1] == r[k] + step
    {
      RangeAt(start, stop, step, k);
      RangeAt(start, stop, step, k + 1);
    }
    forall j, k | 0 <= j < k < |r|
      ensures r[j] < r[k]
    {
      RangeAt(start, stop, step, j);
      RangeAt(start, stop, step, k);
      assert k * step > j * step by { MulStrict(j, k, step); }
    }
  }

  lemma MulStrict(j: int, k: int, step: int)
    requires j < k && step > 0
    ensures j * step < k * step
  {
    assert k * step - j * step == (k - j) * step;
  }

  /** Every value lies in [start, stop], and the last one is above stop - step:
      the generator stops only when the next value would pass stop. */
  lemma RangeBounds(start: int, stop: int, step: int)
    requires step > 0
    ensures var r := Range(start, stop, step);
            forall k :: 0 <= k < |r| ==> start <= r[k] <= stop
    ensures var r := Range(start, stop, step);
            |r| > 0 ==> r[|r| - 1] > stop - step
  {
    var r := Range(start, stop, step);
    RangeLength(start, stop, step);
    forall k | 0 <= k < |r|
      ensures start <= r[k] <= stop
    {
      RangeAt(start, stop, step, k);
      BelowLength(stop - start, step, k);
    }
    if |r| > 0 {
      RangeAt(start, stop, step, |r| - 1);
      LastAboveStop(stop - start, step);
    }
  }

  /** k steps with k at most x / step stay within x. */
  lemma BelowLength(x: int, step: int, k: nat)
    requires x >= 0 && step > 0 && k < x / step + 1
    ensures 0 <= k * step <= x
  {
    assert k * step <= (x / step) * step by { MulMono(k, x / step, step); }
  }

  lemma MulMono(a: nat, b: nat, c: nat)
    requires a <= b
    ensures a * c <= b * c
  {
    assert b * c - a * c == (b - a) * c;
  }

  /** (x / step) steps reach past x - step. */
  lemma LastAboveStop(x: int, step: int)
    requires x >= 0 && step > 0
    ensures (x / step) * step > x - step
  {
  }

  /** A value v is yielded exactly when start <= v <= stop and v - start is a multiple of step. */
  lemma RangeMembership(start: int, stop: int, step: int, v: int)
    requires step > 0
    ensures v in Range(start, stop, step) <==> start <= v <= stop && (v - start) % step == 0
  {
    var r := Range(start, stop, step);
    RangeLength(start, stop, step);
    RangeBounds(start, stop, step);
    if v in r {
      var k :| 0 <= k < |r| && r[k] == v;
      RangeAt(start, stop, step, k);
      DivUnique(v - start, step, k, 0);
    }
    if start <= v <= stop && (v - start) % step == 0 {
      var k := (v - start) / step;
      assert k * step == v - start;
      assert k <= (stop - start) / step by { DivMono(v - start, stop - start, step); }
      RangeAt(start, stop, step, k);
    }
  }

  lemma DivMono(x: int, y: int, d: int)
    requires 0 <= x <= y && d > 0
    ensures x / d <= y / d
  {
    var qx, qy := x / d, y / d;
    assert qx * d <= x <= y < (qy + 1) * d;
  }

  /** Calling without an argument is the same as passing `{}`. */
  lemma NoArgumentIsEmptyObject()
    ensures Resolve(None) == Resolve(Some(NoOptions)) == Bounds(0, 100, 1)
  {
  }

  /** Without an argument the generator yields 0, 1, …, 100: 101 values, the k-th being k. */
  lemma DefaultYieldsZeroToHundred()
    ensures |Yields(None)| == 101
    ensures forall k :: 0 <= k < 101 ==> Yields(None)[k] == k
  {
    RangeLength(0, 100, 1);
    forall k | 0 <= k < 101
      ensures Yields(None)[k] == k
    {
      RangeAt(0, 100, 1, k);
    }
  }

  /** The exercise's "lucky numbers": `{start: 6, stop: 30, step: 4}` yields 6, 10, …, 30. */
  lemma LuckyNumbers()
    ensures Yields(Some(RangeOptions(Some(6), Some(30), Some(4)))) == [6, 10, 14, 18, 22, 26, 30]
  {
  }
}
