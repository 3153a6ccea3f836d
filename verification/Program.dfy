/** The benchmark program after a model was loaded, and what its samples decide in the end. */
module Program {
  import opened Results
  import opened Fields
  import opened Metrics
  import opened Emitter
  import opened Comparator
  import opened Statistics
  import opened Engine
  import opened Benchmark
  import opened Verdict
  import opened Gate

  /** The statistics are the summaries of the samples, in both scopes. */
  ghost predicate IsRun(r: Outcome, root: real -> real) {
    && r.Measured?
    && r.endToEnd != [] && r.stats.endToEnd == Summary(r.endToEnd, root)
    && r.device != [] && r.stats.deviceCompute == Some(Summary(r.device, root))
  }

  function SamplesOf(r: Outcome, scope: Scope): Samples
    requires r.Measured?
  {
    if scope.EndToEnd? then r.endToEnd else r.device
  }

  /** The run, its document and the exit code; an exception makes the exit code 1. */
  method Report(
    n: Numerics, b: BuildInfo, o: Options, e: TensorRTEngine, iterations: Size, warmup: Size, verifyIdentity: bool,
    root: real -> real) returns (r: Outcome, document: string, code: nat)
    requires e.Valid()
    modifies e`lastDeviceLatencyUs, e`timings, e`justInferred, e.api`memory, e.api`failures
    ensures e.Valid()
    ensures r.Thrown? ==> code == 1 && document == ""
    ensures r.Measured? ==>
      IsRun(r, root) && document == MetricsJson(n, b, o, r.stats) && code == ExitOf(o, r.stats)
  {
    hide Summary, TensorRTEngine.Valid, Judges, Produced, Throughput, MetricsJson, ExitOf;
    ghost var last;
    r, last := RunBenchmark(
      e, o.inputSize, o.batchSize, iterations, warmup, verifyIdentity, o.validationTolerance, root);
    if r.Thrown? {
      return r, "", 1;
    }
    document := FormatMetricsJson(n, b, o, r.stats);
    code := ExitCode(o, r.stats);
  }

  /**
   From the raw samples of a run to its exit code, its document and its gauges: with a target and no
   failed validation they all say the same about the tail of the samples. Exit code 4 does not occur,
   for a run always has device samples.
   */
  lemma SamplesDecide(n: Numerics, b: BuildInfo, o: Options, r: Outcome, root: real -> real)
    requires ReadsBack(n) && IsRun(r, root) && o.targetLatencyUs > 0.0 && !ValidationFailed(r.stats)
    ensures var values := if o.targetScope == Scope.EndToEnd then r.endToEnd else r.device;
      var code, read := ExitOf(o, r.stats), VerdictRead(n, MetricsJson(n, b, o, r.stats));
      var k, x, above := |values|, Position(|values|, 0.99), CountAbove(values, o.targetLatencyUs);
      && code in {0, 3}
      && read.Ok? && read.value.0 == Some(code == 0)
      && (code == 0 ==> above <= k - 1 - x.Floor)
      && (code == 3 ==> above >= k - Ceil(x))
    ensures r.stats.runtime.deviceName != "" ==>
      var g := GaugesOf(n, b, o, r.stats);
      g.sloConfigured == 1 && (g.sloPass == 1 <==> ExitOf(o, r.stats) == 0)
  {
    hide Summary, Position, CountAbove, MetricsJson, VerdictRead, ReadsBack, GaugesOf, ValidationFailed;
    var values := SamplesOf(r, o.targetScope);
    DocumentVerdict(n, b, o, r.stats);
    VerdictTail(o, r.stats, values, root);
    VerdictKept(n, b, o, r.stats);
    if r.stats.runtime.deviceName != "" {
      OneVerdict(n, b, o, r.stats);
      GaugeValues(n, b, o, r.stats);
    }
  }

  /** Two runs, the second no worse than the budget sample by sample in some pairing: the gate passes. */
  lemma RunsCompare(
    n: Numerics, eps: real, base: Outcome, candidate: Outcome, bb: BuildInfo, cb: BuildInfo, bo: Options, co: Options,
    scope: Scope, m: Metric, settings: Settings, paired: Samples, a: real, c: real, root: real -> real)
    requires ReadsBack(n) && IsRun(base, root) && IsRun(candidate, root)
    requires settings.allowContextChange || SameContext(n, Run(bb, bo, base.stats), Run(cb, co, candidate.stats))
    requires base.stats.runtime.deviceName != "" && candidate.stats.runtime.deviceName != ""
    requires Precise(n, MetricOf(Summary(SamplesOf(base, scope), root), m), eps)
    requires Precise(n, MetricOf(Summary(SamplesOf(candidate, scope), root), m), eps)
    requires 0.0 <= a <= Factor(settings) && c >= 0.0
    requires c + Times(Factor(settings), eps) + eps
             <= settings.tolerance + Times(Factor(settings) - a, Summary(SamplesOf(base, scope), root).min)
    requires multiset(paired) == multiset(SamplesOf(base, scope))
    requires Dominated(SamplesOf(candidate, scope), paired, a, c)
    ensures Compare(n, MetricsJson(n, bb, bo, base.stats), MetricsJson(n, cb, co, candidate.stats),
                    ScopeArgument(scope), Name(MetricField(m)), settings) == 0
  {
    hide Compare, MetricsJson, Name, MetricField, ScopeArgument, Dominated, SameContext, Summary, ReadsBack, Precise,
         Times, Factor, MetricOf;
    var x, y := Run(bb, bo, base.stats), Run(cb, co, candidate.stats);
    DominatedRunPasses(n, eps, x, y, scope, m, settings, SamplesOf(base, scope), SamplesOf(candidate, scope), paired,
                       a, c, root);
  }
}
