/** The benchmark loop over a TensorRT engine, and the validation of its last output. */
module Benchmark {
  import opened Results
  import opened Metrics
  import opened Volume
  import opened Device
  import opened Engine
  import opened Statistics

  datatype RunError = ZeroOption | Overflow | ShapeMismatch | ZeroCapacity | WarmupFailed | InferenceFailed

  datatype Outcome = Thrown(error: RunError) | Measured(endToEnd: Samples, device: Samples, stats: Stats)

  function Abs(x: real): real {
    if x < 0.0 then -x else x
  }

  /** How far two elements are apart, if both are numbers. */
  function Gap(a: Element, b: Element): Element {
    if a.Number? && b.Number? then Number(Abs(b.value - a.value)) else NaN
  }

  /** A comparison with NaN is false. */
  predicate Exceeds(gap: Element, bound: real) {
    gap.Number? && gap.value > bound
  }

  /** How many of the first `k` elements are off by more than the tolerance. */
  function Misses(a: seq<Element>, b: seq<Element>, k: nat, tolerance: real): (n: nat)
    requires k <= |a| && k <= |b|
    ensures n <= k
    ensures n == 0 <==> forall i :: 0 <= i < k ==> !Exceeds(Gap(a[i], b[i]), tolerance)
  {
    if k == 0 then 0
    else Misses(a, b, k - 1, tolerance) + if Exceeds(Gap(a[k - 1], b[k - 1]), tolerance) then 1 else 0
  }

  /** That is, the size of the set of these elements. */
  lemma {:induction false} MissesCount(a: seq<Element>, b: seq<Element>, k: nat, tolerance: real)
    requires k <= |a| && k <= |b|
    ensures Misses(a, b, k, tolerance) == |set i | 0 <= i < k && Exceeds(Gap(a[i], b[i]), tolerance)|
    decreases k
  {
    hide Exceeds, Gap;
    var all := set i | 0 <= i < k && Exceeds(Gap(a[i], b[i]), tolerance);
    if k > 0 {
      var front := set i | 0 <= i < k - 1 && Exceeds(Gap(a[i], b[i]), tolerance);
      MissesCount(a, b, k - 1, tolerance);
      assert all == front + if Exceeds(Gap(a[k - 1], b[k - 1]), tolerance) then {k - 1} else {};
    }
  }

  /** The larger of the errors among the first `k` elements, and zero. */
  ghost predicate IsLargestError(a: seq<Element>, b: seq<Element>, k: nat, m: real)
    requires k <= |a| && k <= |b|
  {
    && (forall i :: 0 <= i < k ==> !Exceeds(Gap(a[i], b[i]), m))
    && (m == 0.0 || exists i :: 0 <= i < k && Gap(a[i], b[i]) == Number(m))
    && m >= 0.0
  }

  /**
   What a validation says about an output of `n` elements. It passes exactly when the output has the
   length of the input and no element is off by more than the tolerance; missing and surplus elements
   each count as a mismatch.
   */
  ghost predicate Judges(v: OutputValidation, input: seq<Element>, output: seq<Element>, n: nat, tolerance: real) {
    && v.comparedElements == (if |input| < n then |input| else n) <= |output|
    && (v.passed <==> |input| == n && forall i :: 0 <= i < n ==> !Exceeds(Gap(input[i], output[i]), tolerance))
    && v.mismatches == (if |input| < n then n - |input| else |input| - n)
                       + Misses(input, output, v.comparedElements, tolerance)
    && IsLargestError(input, output, v.comparedElements, v.maxAbsError)
  }

  method Validate(input: array<Element>, output: array<Element>, outputElements: Size, tolerance: real)
    returns (v: OutputValidation)
    requires outputElements <= output.Length && input.Length <= MAX_SIZE
    ensures Judges(v, input[..], output[..], outputElements, tolerance)
  {
    var compared: Size := if input.Length < outputElements then input.Length else outputElements;
    var surplus :=
      if input.Length > outputElements then input.Length - outputElements else outputElements - input.Length;
    var misses, largest := 0, 0.0;
    for i := 0 to compared
      invariant misses == Misses(input[..], output[..], i, tolerance)
      invariant IsLargestError(input[..], output[..], i, largest)
    {
      var error := Gap(input[i], output[i]);
      if Exceeds(error, largest) {
        largest := error.value;
        assert Gap(input[..][i], output[..][i]) == Number(largest);
      }
      if Exceeds(error, tolerance) {
        misses := misses + 1;
      }
    }
    v := OutputValidation(surplus + misses == 0, compared, surplus + misses, largest);
  }

  /** Every element of the output is a number, and within the tolerance. */
  ghost predicate IsClose(input: seq<Element>, output: seq<Element>, n: nat, tolerance: real)
    requires |input| == n <= |output|
  {
    forall i :: 0 <= i < n ==>
      output[i].Number? && input[i].Number? && -tolerance <= output[i].value - input[i].value <= tolerance
  }

  /**
   Validation is right about an output exactly as far as it holds numbers: a NaN is no mismatch, so that
   a pass means that the output is close to the input if and only if there is none.
   */
  lemma PassExact(v: OutputValidation, input: seq<Element>, output: seq<Element>, n: nat, tolerance: real)
    requires Judges(v, input, output, n, tolerance) && forall i :: 0 <= i < |input| ==> input[i].Number?
    ensures |input| == n && IsClose(input, output, n, tolerance) ==> v.passed
    ensures v.passed ==>
      |input| == n && (IsClose(input, output, n, tolerance) <==> forall i :: 0 <= i < n ==> output[i].Number?)
  {
    if v.passed {
      forall i | 0 <= i < n && output[i].Number?
        ensures -tolerance <= output[i].value - input[i].value <= tolerance
      {
        assert !Exceeds(Gap(input[i], output[i]), tolerance);
      }
    }
  }

  /** An output without a single number passes, with no mismatch and no error. */
  lemma NaNPasses(v: OutputValidation, input: seq<Element>, output: seq<Element>, tolerance: real)
    requires Judges(v, input, output, |input|, tolerance)
    requires forall i :: 0 <= i < |input| <= |output| ==> output[i].NaN?
    ensures v.passed && v.mismatches == 0 && v.maxAbsError == 0.0
  {
  }

  /** Runs a number of inferences; every one has to succeed. */
  method Warm(e: TensorRTEngine, count: Size, input: array<Element>, output: array<Element>) returns (ok: bool)
    requires e.Valid() && input.Length <= MAX_SIZE && output.Length <= MAX_SIZE && input != output
    modifies e`lastDeviceLatencyUs, e`timings, e`justInferred, e.api`memory, e.api`failures, output
    ensures e.Valid()
    ensures ok ==> |e.timings| == |old(e.timings)| + count && old(e.timings) <= e.timings
    ensures ok ==> e.api.failures == old(e.api.failures)
    ensures !ok ==> e.api.failures > old(e.api.failures) || !e.Accepts(true, input.Length, true, output.Length)
  {
    for i := 0 to count
      invariant e.Valid() && |e.timings| == |old(e.timings)| + i && old(e.timings) <= e.timings
      invariant e.api.failures == old(e.api.failures)
    {
      var done, _ := e.InferInto(input, input.Length, output, output.Length);
      if !done {
        return false;
      }
    }
    return true;
  }

  /** The true product, in plain numbers. */
  lemma ElementsPlain(inputSize: Size, batchSize: Size)
    ensures Elements(inputSize, batchSize) == inputSize * batchSize
  {
  }

  /** If the latest load succeeded, the output buffer holds what the device computes from the input. */
  ghost predicate Produced(e: TensorRTEngine, input: seq<Element>, output: seq<Element>)
    reads e
  {
    var n, m := e.inputBytes / FLOAT_BYTES, e.outputBytes / FLOAT_BYTES;
    e.loaded ==>
    && e.context.Some? && n <= |input| && m <= |output|
    && output[..m] == Computed(e.api.kernel, e.context.value, input[..n], m)
  }

  /** One inference on the whole of both buffers. */
  method InferOnce(e: TensorRTEngine, input: array<Element>, output: array<Element>)
    returns (ok: bool, outputElements: Size)
    requires e.Valid() && input.Length <= MAX_SIZE && output.Length <= MAX_SIZE && input != output
    modifies e`lastDeviceLatencyUs, e`timings, e`justInferred, e.api`memory, e.api`failures, output
    ensures e.Valid() && outputElements <= output.Length
    ensures ok ==> e.lastDeviceLatencyUs.Some? && e.timings == old(e.timings) + [e.lastDeviceLatencyUs.value]
    ensures !ok ==> e.timings == old(e.timings)
    ensures ok ==> e.api.failures == old(e.api.failures)
    ensures !ok ==> e.api.failures > old(e.api.failures) || !e.Accepts(true, input.Length, true, output.Length)
    ensures ok ==> outputElements == e.outputBytes / FLOAT_BYTES && Produced(e, input[..], output[..])
  {
    hide TensorRTEngine.Valid, Computed;
    ok, outputElements := e.InferInto(input, input.Length, output, output.Length);
    if ok {
      ghost var staged := input[..e.inputBytes / FLOAT_BYTES];
      assert input[..][..e.inputBytes / FLOAT_BYTES] == staged;
      assert output[..][..outputElements] == output[..outputElements];
    }
  }

  /**
   The measured iterations: one end-to-end sample each, and one device sample each, which is the time
   of that very inference, in order.
   */
  method Measure(e: TensorRTEngine, iterations: Size, input: array<Element>, output: array<Element>)
    returns (ok: bool, endToEnd: seq<real>, device: seq<real>, outputElements: Size)
    requires e.Valid() && input.Length <= MAX_SIZE && output.Length <= MAX_SIZE && input != output
    modifies e`lastDeviceLatencyUs, e`timings, e`justInferred, e.api`memory, e.api`failures, output
    ensures e.Valid() && outputElements <= output.Length
    ensures ok ==> |endToEnd| == |device| == iterations && e.timings == old(e.timings) + device
    ensures ok ==> e.api.failures == old(e.api.failures)
    ensures !ok ==> e.api.failures > old(e.api.failures) || !e.Accepts(true, input.Length, true, output.Length)
    ensures ok && iterations > 0 ==>
      outputElements == e.outputBytes / FLOAT_BYTES && Produced(e, input[..], output[..])
  {
    hide Produced, TensorRTEngine.Valid;
    endToEnd, device, outputElements := [], [], 0;
    for i := 0 to iterations
      invariant e.Valid() && outputElements <= output.Length
      invariant |endToEnd| == |device| == i && e.timings == old(e.timings) + device
      invariant e.api.failures == old(e.api.failures)
      invariant i > 0 ==> outputElements == e.outputBytes / FLOAT_BYTES && Produced(e, input[..], output[..])
    {
      var elapsed: real := *;
      ok, outputElements := InferOnce(e, input, output);
      if !ok {
        return;
      }
      endToEnd := endToEnd + [elapsed];
      if e.lastDeviceLatencyUs.Some? {
        device := device + [e.lastDeviceLatencyUs.value];
      }
    }
    ok := true;
  }

  /** The true number of input elements, which may not fit. */
  function Elements(inputSize: Size, batchSize: Size): nat {
    inputSize * batchSize
  }

  /** The refusals before any inference, and the number of input elements otherwise. */
  method InputElements(e: TensorRTEngine, inputSize: Size, batchSize: Size, iterations: Size)
    returns (total: Size, error: Option<RunError>)
    ensures error == Some(ZeroOption) <==> inputSize == 0 || batchSize == 0 || iterations == 0
    ensures error == Some(Overflow) <==> error != Some(ZeroOption) && Elements(inputSize, batchSize) > MAX_SIZE
    ensures error == Some(ShapeMismatch) <==>
      (error != Some(ZeroOption) && error != Some(Overflow)
       && e.inputBytes / FLOAT_BYTES != 0 && Elements(inputSize, batchSize) != e.inputBytes / FLOAT_BYTES)
    ensures error.None? ==> total == Elements(inputSize, batchSize) > 0
    ensures error in {None, Some(ZeroOption), Some(Overflow), Some(ShapeMismatch)}
  {
    if inputSize == 0 || batchSize == 0 || iterations == 0 {
      return 0, Some(ZeroOption);
    }
    GuardExact(inputSize, batchSize);
    if inputSize > MAX_SIZE / batchSize {
      return 0, Some(Overflow);
    }
    MultiplyUp(inputSize, batchSize);
    total := inputSize * batchSize;
    var capacity := e.inputBytes / FLOAT_BYTES;
    if capacity != 0 && total != capacity {
      return 0, Some(ShapeMismatch);
    }
    error := None;
  }

  /** Inferences and samples per second, zero when no time was measured. */
  function Throughput(d: Distribution, perSample: real): real {
    var seconds := d.mean * d.samples as real / 1000000.0;
    if seconds > 0.0 then d.samples as real * perSample / seconds else 0.0
  }

  /** Over any run that took time, inferences per second times its seconds is the number of inferences. */
  lemma ThroughputExact(values: Samples, root: real -> real)
    ensures var rate := Throughput(Summary(values, root), 1.0);
      && (Sum(values) > 0.0 ==> Times(rate, Sum(values) / 1000000.0) == |values| as real)
      && (Sum(values) <= 0.0 ==> rate == 0.0)
  {
    hide Sort, Sorted, Sum, Mean, Throughput, Times, Summary;
    SortSorted(values);
    SortSum(values);
    if values == [] {
      NothingSummed(values, root);
    } else {
      MeanProduct(Sort(values));
      SummaryCounts(values, root);
      RateOf(Summary(values, root), Sum(values));
    }
  }

  lemma NothingSummed(values: Samples, root: real -> real)
    requires values == []
    ensures Sum(values) == 0.0 && Throughput(Summary(values, root), 1.0) == 0.0
  {
  }

  lemma SummaryCounts(values: Samples, root: real -> real)
    requires values != [] && |Sort(values)| == |values|
    ensures var d := Summary(values, root); d.samples == |values| && d.mean == Mean(Sort(values))
  {
    hide Sort, Variance, Percentile, Mean;
  }

  lemma RateOf(d: Distribution, total: real)
    requires Times(d.samples as real, d.mean) == total
    ensures total > 0.0 ==> Times(Throughput(d, 1.0), total / 1000000.0) == d.samples as real
    ensures total <= 0.0 ==> Throughput(d, 1.0) == 0.0
  {
    var seconds := d.mean * d.samples as real / 1000000.0;
    assert seconds == total / 1000000.0;
    if total > 0.0 {
      CountBack(d.samples as real, seconds);
    }
  }

  lemma CountBack(n: real, t: real)
    requires t > 0.0
    ensures n * 1.0 / t * t == n
  {
  }

  /** Samples per second are inferences per second times the batch size. */
  lemma ThroughputScales(d: Distribution, batch: real)
    ensures Throughput(d, batch) == Throughput(d, 1.0) * batch
  {
    var seconds := d.mean * d.samples as real / 1000000.0;
    if seconds > 0.0 {
      QuotientScales(d.samples as real, batch, seconds);
    }
  }

  lemma QuotientScales(a: real, b: real, t: real)
    requires t > 0.0
    ensures a * b / t == a * 1.0 / t * b
  {
    assert (a / t) * b * t == a * b;
  }

  function BackendName(): string {
    "tensorrt-gpu"
  }

  /** The fixed input every run is made on. */
  function Pattern(total: nat): (input: seq<Element>)
    ensures |input| == total && forall i :: 0 <= i < total ==> input[i].Number?
  {
    seq(total, i => Number((i % 97) as real / 97.0))
  }

  /** The elements count up in 97ths, over and over. */
  lemma PatternExact(total: nat, i: nat)
    requires i < total
    ensures Pattern(total)[i].value * 97.0 == (i % 97) as real
  {
  }

  /** Warm-up, measurement and validation on buffers of the right size; `last` is the last output buffer. */
  method Execute(e: TensorRTEngine, total: Size, iterations: Size, warmup: Size, verifyIdentity: bool, tolerance: real)
    returns (error: Option<RunError>, endToEnd: Samples, device: Samples, validation: Option<OutputValidation>,
             ghost last: seq<Element>)
    requires e.Valid() && iterations > 0
    modifies e`lastDeviceLatencyUs, e`timings, e`justInferred, e.api`memory, e.api`failures
    ensures e.Valid()
    ensures error in {None, Some(ZeroCapacity), Some(WarmupFailed), Some(InferenceFailed)}
    ensures error == Some(ZeroCapacity) ==> total == 0
    ensures error.None? ==> e.api.failures == old(e.api.failures)
    ensures error in {Some(WarmupFailed), Some(InferenceFailed)} ==>
      e.api.failures > old(e.api.failures) || !e.Ready() || total == 0 || FloatBytes(total) != e.inputBytes
    ensures error.None? ==>
      && |endToEnd| == |device| == iterations
      && |e.timings| == |old(e.timings)| + warmup + iterations && old(e.timings) <= e.timings
      && device == e.timings[|e.timings| - iterations..]
      && Produced(e, Pattern(total), last)
      && validation.Some? == verifyIdentity
      && (verifyIdentity ==>
            Judges(validation.value, Pattern(total), last, e.outputBytes / FLOAT_BYTES, tolerance))
  {
    hide Judges, TensorRTEngine.Valid, Produced;
    endToEnd, device, validation, last := [], [], None, [];
    var input := new Element[total](i => Number((i % 97) as real / 97.0));
    assert input[..] == Pattern(total);
    var declared: Size := e.outputBytes / FLOAT_BYTES;
    var capacity := if declared == 0 then total else declared;
    if capacity == 0 {
      return Some(ZeroCapacity), [], [], None, [];
    }
    var output := new Element[capacity](_ => Number(0.0));
    var warm := Warm(e, warmup, input, output);
    if !warm {
      return Some(WarmupFailed), [], [], None, [];
    }
    var ok, wall, times, outputElements := Measure(e, iterations, input, output);
    if !ok {
      return Some(InferenceFailed), [], [], None, [];
    }
    endToEnd, device := wall, times;
    last := output[..];
    if verifyIdentity {
      var v := Validate(input, output, outputElements, tolerance);
      validation := Some(v);
    }
    error := None;
  }

  /** The element count that fits the known input size passes the size check. */
  lemma CapacityFits(e: TensorRTEngine, total: Size)
    requires e.Valid()
    ensures e.inputBytes != 0 && (e.inputBytes / FLOAT_BYTES == 0 || total == e.inputBytes / FLOAT_BYTES) ==>
      FloatBytes(total) == e.inputBytes
  {
  }

  /**
   The refused arguments, in order. An engine with all its handles and an input of known size fails only
   when a foreign call does, and zero capacity is never reported. A completed run has exactly one end-to-end
   sample and one device sample per measured iteration, the device samples being the times of the last inferences of the
   engine, in order; its statistics are the summaries of these samples, and its validation judges the
   last output buffer against the input.
   */
  method RunBenchmark(
    e: TensorRTEngine, inputSize: Size, batchSize: Size, iterations: Size, warmup: Size, verifyIdentity: bool,
    tolerance: real, root: real -> real) returns (r: Outcome, ghost last: seq<Element>)
    requires e.Valid()
    modifies e`lastDeviceLatencyUs, e`timings, e`justInferred, e.api`memory, e.api`failures
    ensures e.Valid()
    ensures r == Thrown(ZeroOption) <==> inputSize == 0 || batchSize == 0 || iterations == 0
    ensures r == Thrown(Overflow) <==> r != Thrown(ZeroOption) && Elements(inputSize, batchSize) > MAX_SIZE
    ensures r == Thrown(ShapeMismatch) <==>
      (r != Thrown(ZeroOption) && r != Thrown(Overflow)
       && e.inputBytes / FLOAT_BYTES != 0 && Elements(inputSize, batchSize) != e.inputBytes / FLOAT_BYTES)
    ensures r != Thrown(ZeroCapacity)
    ensures r in {Thrown(WarmupFailed), Thrown(InferenceFailed)} ==>
      e.api.failures > old(e.api.failures) || !e.Ready() || e.inputBytes == 0
    ensures r.Measured? ==> e.api.failures == old(e.api.failures)
    ensures r.Measured? ==>
      && |r.endToEnd| == |r.device| == iterations > 0
      && |e.timings| == |old(e.timings)| + warmup + iterations && old(e.timings) <= e.timings
      && r.device == e.timings[|e.timings| - iterations..]
      && r.stats.endToEnd == Summary(r.endToEnd, root)
      && r.stats.deviceCompute == Some(Summary(r.device, root))
      && r.stats.throughputIps == Throughput(r.stats.endToEnd, 1.0)
      && r.stats.throughputSamples == r.stats.throughputIps * batchSize as real
      && r.stats.cudaGraph == e.graphExecution.Some? && r.stats.runtime == e.metadata
      && Produced(e, Pattern(Elements(inputSize, batchSize)), last)
      && r.stats.validation.Some? == verifyIdentity
      && (verifyIdentity ==>
            Judges(r.stats.validation.value, Pattern(Elements(inputSize, batchSize)), last,
                   e.outputBytes / FLOAT_BYTES, tolerance))
  {
    hide Summary, Throughput, Elements, TensorRTEngine.Valid, Judges, Produced;
    last := [];
    var total, error := InputElements(e, inputSize, batchSize, iterations);
    if error.Some? {
      return Thrown(error.value), [];
    }
    CapacityFits(e, total);
    var failure, endToEnd, device, validation;
    failure, endToEnd, device, validation, last :=
      Execute(e, total, iterations, warmup, verifyIdentity, tolerance);
    if failure.Some? {
      return Thrown(failure.value), [];
    }
    var overall := Summarize(endToEnd, root);
    var deviceCompute := None;
    if device != [] {
      var d := Summarize(device, root);
      deviceCompute := Some(d);
    }
    ThroughputScales(overall, batchSize as real);
    var stats := Stats(
      overall, deviceCompute, validation, e.graphExecution.Some?, e.metadata,
      Throughput(overall, 1.0), Throughput(overall, batchSize as real), BackendName());
    r := Measured(endToEnd, device, stats);
  }
}
