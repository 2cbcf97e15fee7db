/** The first attempt at the generator, in exercises/iterators-generators/response-ex.js.
    It accepts `{start, end, step}` with the same kind of defaults, but its loop
    counts from the literal 0 to the literal 100, so only `step` has any effect. */
module RangeIteratorFirstAttempt {
  import opened Wrappers
  import RangeIterator

  /** The options object of this version: the upper bound is called `end`. */
  datatype RangeOptions = RangeOptions(start: Option<int>, end: Option<int>, step: Option<int>)

  const NoOptions := RangeOptions(None, None, None)

  /** The parameter pattern `{ start = 0, end = 100, step = 1 } = {}`. */
  function Resolve(arg: Option<RangeOptions>): (b: RangeIterator.Bounds)
    ensures arg.Some? && arg.value.start.Some? ==> b.start == arg.value.start.value
    ensures arg.Some? && arg.value.end.Some? ==> b.stop == arg.value.end.value
    ensures arg.Some? && arg.value.step.Some? ==> b.step == arg.value.step.value
    ensures (arg.None? || arg.value.start.None?) ==> b.start == 0
    ensures (arg.None? || arg.value.end.None?) ==> b.stop == 100
    ensures (arg.None? || arg.value.step.None?) ==> b.step == 1
  {
    var o := arg.GetOr(NoOptions);
    RangeIterator.Bounds(o.start.GetOr(0), o.end.GetOr(100), o.step.GetOr(1))
  }

  /** What the loop `for (let i = 0; i <= 100; i += step)` yields: the resolved
      `start` and `end` are computed but never read. */
  function Yields(arg: Option<RangeOptions>): (r: seq<int>)
    requires Resolve(arg).step > 0
  {
    RangeIterator.Range(0, 100, Resolve(arg).step)
  }

  /** Running the generator to completion, collecting what it yields. The loop
      starts at 0 <= 100, so a step that is not positive never lets it end. */
  method Numbers(arg: Option<RangeOptions>) returns (ys: seq<int>)
    requires Resolve(arg).step > 0
    ensures ys == Yields(arg)
  {
    var step := Resolve(arg).step;
    var i := 0;
    ys := [];
    while i <= 100
      invariant ys + RangeIterator.Range(i, 100, step) == RangeIterator.Range(0, 100, step)
      decreases 100 - i
    {
      assert RangeIterator.Range(i, 100, step) == [i] + RangeIterator.Range(i + step, 100, step);
      assert ys + [i] + RangeIterator.Range(i + step, 100, step) == ys + ([i] + RangeIterator.Range(i + step, 100, step));
      ys := ys + [i];
      i := i + step;
    }
  }

  /** The options with `end` renamed `stop`, as the fixed generator reads them. */
  function AsFixedOptions(o: RangeOptions): (f: RangeIterator.RangeOptions)
    ensures f.start == o.start && f.stop == o.end && f.step == o.step
  {
    RangeIterator.RangeOptions(o.start, o.end, o.step)
  }

  /** Changing `start` or `end` never changes the output: it depends on `step` alone. */
  lemma OnlyStepMatters(a: Option<RangeOptions>, b: Option<RangeOptions>)
    requires Resolve(a).step > 0
    requires Resolve(a).step == Resolve(b).step
    ensures Yields(a) == Yields(b)
  {
  }

  /** The first value is always 0 and no value exceeds 100, whatever `start` and `end` are,
      and consecutive values are `step` apart. */
  lemma StartAndEndIgnored(arg: Option<RangeOptions>)
    requires Resolve(arg).step > 0
    ensures var ys, step := Yields(arg), Resolve(arg).step;
            |ys| > 0 && ys[0] == 0 &&
            (forall k :: 0 <= k < |ys| ==> 0 <= ys[k] <= 100) &&
            (forall k :: 0 <= k < |ys| - 1 ==> ys[k + 1] == ys[k] + step)
  {
    var step := Resolve(arg).step;
    RangeIterator.RangeStartsAtStart(0, 100, step);
    RangeIterator.RangeBounds(0, 100, step);
    RangeIterator.RangeSpacing(0, 100, step);
  }

  /** Every value is a multiple of `step`: the k-th is k * step. */
  lemma MultiplesOfStep(arg: Option<RangeOptions>)
    requires Resolve(arg).step > 0
    ensures var ys, step := Yields(arg), Resolve(arg).step;
            forall k :: 0 <= k < |ys| ==> ys[k] == k * step && ys[k] % step == 0
  {
    var ys, step := Yields(arg), Resolve(arg).step;
    forall k | 0 <= k < |ys|
      ensures ys[k] == k * step && ys[k] % step == 0
    {
      RangeIterator.RangeAt(0, 100, step, k);
      RangeIterator.DivUnique(k * step, step, k, 0);
    }
  }

  /** With the default step it yields 0, 1, …, 100, as the fixed generator does without options. */
  lemma DefaultStepYieldsZeroToHundred(arg: Option<RangeOptions>)
    requires Resolve(arg).step == 1
    ensures Yields(arg) == RangeIterator.Yields(None)
    ensures |Yields(arg)| == 101 && forall k :: 0 <= k < 101 ==> Yields(arg)[k] == k
  {
    RangeIterator.DefaultYieldsZeroToHundred();
  }

  /** It behaves as the fixed generator when `start` resolves to 0 and `end` to 100,
      and differs from it whenever `start` resolves to anything other than 0. */
  lemma ComparedWithFixed(o: RangeOptions)
    requires Resolve(Some(o)).step > 0
    ensures Resolve(Some(o)).start == 0 && Resolve(Some(o)).stop == 100 ==>
            Yields(Some(o)) == RangeIterator.Yields(Some(AsFixedOptions(o)))
    ensures Resolve(Some(o)).start != 0 ==>
            Yields(Some(o)) != RangeIterator.Yields(Some(AsFixedOptions(o)))
  {
    var b := Resolve(Some(o));
    assert RangeIterator.Resolve(Some(AsFixedOptions(o))) == b;
    if b.start != 0 {
      RangeIterator.RangeStartsAtStart(b.start, b.stop, b.step);
      RangeIterator.RangeStartsAtStart(0, 100, b.step);
    }
  }

  /** With the options `{start: 6, end: 30, step: 4}` it yields 0, 4, …, 100 (26 values), not 6, …, 30. */
  lemma LuckyNumbersIgnored()
    ensures var ys := Yields(Some(RangeOptions(Some(6), Some(30), Some(4))));
            |ys| == 26 && ys[0] == 0 && ys[25] == 100
  {
    RangeIterator.RangeLength(0, 100, 4);
    RangeIterator.RangeAt(0, 100, 4, 25);
  }
}
