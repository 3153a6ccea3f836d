/** The comparator's decision, from two documents to an exit code, and from raw samples to a pass. */
module Gate {
  import opened Results
  import opened Literals
  import opened Ambiguity
  import opened Fields
  import opened Metrics
  import opened Emitter
  import opened Document
  import opened Comparator
  import opened Statistics

  datatype Settings = Settings(percent: real, tolerance: real, allowContextChange: bool)

  /** The fields that must agree, in the order in which they are listed. */
  function ContextDifferences(a: RunMetrics, b: RunMetrics): seq<string> {
    (if a.backend != b.backend then ["backend"] else []) +
    (if a.device != b.device then ["device"] else []) +
    (if a.inputSize != b.inputSize then ["input_size"] else []) +
    (if a.batchSize != b.batchSize then ["batch_size"] else []) +
    (if a.cudaGraph != b.cudaGraph then ["cuda_graph"] else [])
  }

  function Limit(baseline: real, settings: Settings): real {
    Times(Factor(settings), baseline) + settings.tolerance
  }

  predicate ValidScope(scope: string) {
    scope == "e2e" || scope == "device"
  }

  predicate ValidMetric(metric: string) {
    metric in ["mean", "p50", "p90", "p95", "p99", "max"]
  }

  /** The exit code: 0 within budget, 1 a regression, 2 unusable input, 4 another context. */
  function Compare(n: Numerics, baseline: string, candidate: string, scope: string, metric: string,
                   settings: Settings): nat {
    if !ValidScope(scope) || !ValidMetric(metric) then 2
    else
      var a, b := ParseMetrics(n, baseline, scope, metric), ParseMetrics(n, candidate, scope, metric);
      if a.Fail? || b.Fail? then 2
      else if !settings.allowContextChange && ContextDifferences(a.value, b.value) != [] then 4
      else if b.value.latencyUs <= Limit(a.value.latencyUs, settings) then 0
      else 1
  }

  /** Other arguments than the documented ones are refused. */
  lemma ArgumentsRefused(n: Numerics, baseline: string, candidate: string, scope: string, metric: string,
                         settings: Settings)
    requires !(scope in ["e2e", "device"]) || !(metric in ["mean", "p50", "p90", "p95", "p99", "max"])
    ensures Compare(n, baseline, candidate, scope, metric, settings) == 2
  {
    hide ParseMetrics, ContextDifferences, Limit;
  }

  /** A benchmark run, as it is handed to the emitter. */
  datatype Run = Run(build: BuildInfo, options: Options, stats: Stats)

  function DocumentOf(n: Numerics, r: Run): string {
    MetricsJson(n, r.build, r.options, r.stats)
  }

  /** Two runs the comparator takes for comparable. */
  ghost predicate SameContext(n: Numerics, a: Run, b: Run)
    requires ReadsBack(n)
  {
    && Shown(a.stats.backend) == Shown(b.stats.backend)
    && Shown(a.stats.runtime.deviceName) == Shown(b.stats.runtime.deviceName)
    && RereadSize(n, a.options.inputSize) == RereadSize(n, b.options.inputSize)
    && RereadSize(n, a.options.batchSize) == RereadSize(n, b.options.batchSize)
    && a.stats.cudaGraph == b.stats.cudaGraph
  }

  /** A document the comparator can use for a scope. */
  predicate Usable(r: Run, scope: Scope) {
    Recorded(r.stats, scope).Some? && r.stats.runtime.deviceName != ""
  }

  lemma ArgumentsValid(scope: Scope, m: Metric)
    ensures ValidScope(ScopeArgument(scope)) && ValidMetric(Name(MetricField(m)))
  {
  }

  /** What the comparator answers for any two emitted documents. */
  lemma CompareEmitted(n: Numerics, a: Run, b: Run, scope: Scope, m: Metric, settings: Settings)
    requires ReadsBack(n)
    ensures Compare(n, DocumentOf(n, a), DocumentOf(n, b), ScopeArgument(scope), Name(MetricField(m)), settings) ==
      if !Usable(a, scope) || !Usable(b, scope) then 2
      else if !settings.allowContextChange && !SameContext(n, a, b) then 4
      else if Reread(n, MetricOf(Recorded(b.stats, scope).value, m))
              <= Limit(Reread(n, MetricOf(Recorded(a.stats, scope).value, m)), settings) then 0
      else 1
  {
    hide MetricsJson, ParseMetrics, ReadsBack, Name, Limit, ValidScope, ValidMetric, Reread, RereadSize, Shown,
         MetricField, MetricOf, ScopeArgument;
    ArgumentsValid(scope, m);
    ParseEmitted(n, a.build, a.options, a.stats, scope, m);
    ParseEmitted(n, b.build, b.options, b.stats, scope, m);
  }

  /**
   The verdict on two usable documents of comparable runs, in plain numbers: a pass if and only if the
   candidate, less the tolerance, is within so many percent of the baseline; otherwise a regression.
   */
  lemma CompareBudget(n: Numerics, a: Run, b: Run, scope: Scope, m: Metric, settings: Settings)
    requires ReadsBack(n) && Usable(a, scope) && Usable(b, scope)
    requires settings.allowContextChange || SameContext(n, a, b)
    ensures var x := Reread(n, MetricOf(Recorded(a.stats, scope).value, m));
      var y := Reread(n, MetricOf(Recorded(b.stats, scope).value, m));
      var code := Compare(n, DocumentOf(n, a), DocumentOf(n, b), ScopeArgument(scope), Name(MetricField(m)), settings);
      && code in {0, 1}
      && (code == 0 <==> 100.0 * (y - settings.tolerance) <= (100.0 + settings.percent) * x)
  {
    hide ReadsBack, Reread, DocumentOf, Compare, Limit, SameContext, MetricOf, Name, MetricField, ScopeArgument;
    CompareEmitted(n, a, b, scope, m, settings);
    LimitPlain(Reread(n, MetricOf(Recorded(a.stats, scope).value, m)), settings);
  }

  lemma LimitPlain(x: real, settings: Settings)
    ensures 100.0 * (Limit(x, settings) - settings.tolerance) == (100.0 + settings.percent) * x
  {
  }

  /** A number does not change by more than `eps` when it is printed and read back. */
  ghost predicate Precise(n: Numerics, x: real, eps: real)
    requires ReadsBack(n)
  {
    x - eps <= Reread(n, x) <= x + eps
  }

  /** The sample sequence behind a scope of a run. */
  ghost predicate MeasuredFrom(r: Run, scope: Scope, samples: Samples, root: real -> real) {
    Recorded(r.stats, scope) == Some(Summary(samples, root))
  }

  /** The factor the budget allows between a baseline and a candidate. */
  function Factor(settings: Settings): real {
    1.0 + settings.percent / 100.0
  }

  /**
   From raw samples to the gate: a candidate whose samples can be paired with those of the baseline,
   none exceeding `a` times its partner plus `b`, passes in every metric if the budget leaves room for
   the offset and for what printing costs. The room is the absolute tolerance and what the relative
   part, `a` taken off, makes of the smallest baseline sample.
   */
  lemma DominatedRunPasses(
    n: Numerics, eps: real, base: Run, candidate: Run, scope: Scope, m: Metric, settings: Settings,
    x: Samples, y: Samples, paired: Samples, a: real, b: real, root: real -> real)
    requires ReadsBack(n) && (settings.allowContextChange || SameContext(n, base, candidate))
    requires base.stats.runtime.deviceName != "" && candidate.stats.runtime.deviceName != ""
    requires MeasuredFrom(base, scope, x, root) && MeasuredFrom(candidate, scope, y, root)
    requires Precise(n, MetricOf(Summary(x, root), m), eps) && Precise(n, MetricOf(Summary(y, root), m), eps)
    requires 0.0 <= a <= Factor(settings) && b >= 0.0
    requires b + Times(Factor(settings), eps) + eps
             <= settings.tolerance + Times(Factor(settings) - a, Summary(x, root).min)
    requires multiset(paired) == multiset(x) && Dominated(y, paired, a, b)
    ensures Compare(n, DocumentOf(n, base), DocumentOf(n, candidate), ScopeArgument(scope), Name(MetricField(m)),
                    settings) == 0
  {
    hide DocumentOf, Compare, Name, MetricField, ScopeArgument, Dominated, SameContext, Summary, ReadsBack, Reread,
         Times, Precise, Factor;
    CompareEmitted(n, base, candidate, scope, m, settings);
    SummaryDominated(y, x, paired, a, b, root);
    SummaryOrdered(x, root);
    var d := Summary(x, root);
    assert d.min <= MetricOf(d, m);
    assert Within(MetricOf(Summary(y, root), m), MetricOf(d, m), a, b);
    BudgetHolds(n, eps, MetricOf(d, m), MetricOf(Summary(y, root), m), d.min, settings, a, b);
  }

  lemma BudgetHolds(n: Numerics, eps: real, x: real, y: real, low: real, settings: Settings, a: real, b: real)
    requires ReadsBack(n) && Precise(n, x, eps) && Precise(n, y, eps)
    requires 0.0 <= a <= Factor(settings) && low <= x && Within(y, x, a, b)
    requires b + Times(Factor(settings), eps) + eps <= settings.tolerance + Times(Factor(settings) - a, low)
    ensures Reread(n, y) <= Limit(Reread(n, x), settings)
  {
    hide ReadsBack, Reread, Times;
    var factor := Factor(settings);
    Ordered(x - eps, Reread(n, x), factor);
    Difference(factor, x, eps);
    Ordered(low, x, factor - a);
    Spread(factor - a, a, x);
  }

  /**
   The converse: a candidate whose samples can be paired with those of the baseline so that each exceeds
   the budget of its partner, and what printing costs, is a regression in every metric.
   */
  lemma RegressedRunFails(
    n: Numerics, eps: real, base: Run, candidate: Run, scope: Scope, m: Metric, settings: Settings,
    x: Samples, y: Samples, paired: Samples, root: real -> real)
    requires ReadsBack(n) && (settings.allowContextChange || SameContext(n, base, candidate))
    requires base.stats.runtime.deviceName != "" && candidate.stats.runtime.deviceName != ""
    requires MeasuredFrom(base, scope, x, root) && MeasuredFrom(candidate, scope, y, root)
    requires Precise(n, MetricOf(Summary(x, root), m), eps) && Precise(n, MetricOf(Summary(y, root), m), eps)
    requires settings.percent >= 0.0 && x != [] && multiset(paired) == multiset(x) && |y| == |paired|
    requires var a := 1.0 + settings.percent / 100.0;
      forall i :: 0 <= i < |y| ==> Exceeding(y[i], paired[i], a, settings.tolerance + Times(a, eps) + eps)
    ensures Compare(n, DocumentOf(n, base), DocumentOf(n, candidate), ScopeArgument(scope), Name(MetricField(m)),
                    settings) == 1
  {
    hide DocumentOf, Compare, Name, MetricField, ScopeArgument, SameContext, Summary, ReadsBack, Reread, Times,
         Precise, Limit, Exceeding;
    var a := 1.0 + settings.percent / 100.0;
    CompareEmitted(n, base, candidate, scope, m, settings);
    var c := SummaryExceeds(y, x, paired, a, settings.tolerance + Times(a, eps) + eps, root);
    BudgetBroken(n, eps, MetricOf(Summary(x, root), m), MetricOf(Summary(y, root), m), settings, c);
  }

  lemma BudgetBroken(n: Numerics, eps: real, x: real, y: real, settings: Settings, c: real)
    requires ReadsBack(n) && Precise(n, x, eps) && Precise(n, y, eps) && settings.percent >= 0.0
    requires var a := 1.0 + settings.percent / 100.0;
      y >= Times(a, x) + c && c > settings.tolerance + Times(a, eps) + eps
    ensures Reread(n, y) > Limit(Reread(n, x), settings)
  {
    hide ReadsBack, Reread, Times;
    var a := 1.0 + settings.percent / 100.0;
    Ordered(Reread(n, x), x + eps, a);
    Distribute(a, x, eps);
  }

  const DEFAULTS := Settings(5.0, 0.0, false)

  /**
   With the settings the comparator has by default, no sample has to exceed its partner: that, and
   baseline samples 41 times as large as the cost of printing, is enough to pass.
   */
  lemma DefaultsPass(
    n: Numerics, eps: real, base: Run, candidate: Run, scope: Scope, m: Metric,
    x: Samples, y: Samples, paired: Samples, root: real -> real)
    requires ReadsBack(n) && SameContext(n, base, candidate)
    requires base.stats.runtime.deviceName != "" && candidate.stats.runtime.deviceName != ""
    requires MeasuredFrom(base, scope, x, root) && MeasuredFrom(candidate, scope, y, root)
    requires Precise(n, MetricOf(Summary(x, root), m), eps) && Precise(n, MetricOf(Summary(y, root), m), eps)
    requires multiset(paired) == multiset(x) && |y| == |paired| && forall i :: 0 <= i < |y| ==> y[i] <= paired[i]
    requires Summary(x, root).min >= 41.0 * eps
    ensures Compare(n, DocumentOf(n, base), DocumentOf(n, candidate), ScopeArgument(scope), Name(MetricField(m)),
                    DEFAULTS) == 0
  {
    hide DocumentOf, Compare, Name, MetricField, ScopeArgument, SameContext, Summary, ReadsBack, Reread, Precise,
         MeasuredFrom, MetricOf;
    var low := Summary(x, root).min;
    assert Factor(DEFAULTS) == 1.05;
    assert Times(1.05, eps) == 1.05 * eps;
    assert Times(1.05 - 1.0, low) == 0.05 * low;
    AtMostDominated(y, paired);
    DominatedRunPasses(n, eps, base, candidate, scope, m, DEFAULTS, x, y, paired, 1.0, 0.0, root);
  }

  lemma AtMostDominated(y: seq<real>, x: seq<real>)
    requires |y| == |x| && forall i :: 0 <= i < |y| ==> y[i] <= x[i]
    ensures Dominated(y, x, 1.0, 0.0)
  {
  }

  // ---------------------------------------------------------------- the context guard

  /**
   The context guard tells the device of a run from every other device exactly when its name holds
   neither a bare control nor the spelling of one. Device names are C strings, without null characters.
   */
  lemma GuardTellsDevices(n: Numerics, a: Run)
    requires ReadsBack(n) && IsOver(a.stats.runtime.deviceName, FIRST)
    ensures (forall b: Run | IsOver(b.stats.runtime.deviceName, FIRST) && SameContext(n, a, b) ::
               b.stats.runtime.deviceName == a.stats.runtime.deviceName)
       <==> NoBareControl(a.stats.runtime.deviceName) && !HoldsSpelling(a.stats.runtime.deviceName, FIRST)
  {
    hide ReadsBack, SameContext, NoBareControl, HoldsSpelling, IsOver;
    var name := a.stats.runtime.deviceName;
    ShownDetermines(name, FIRST);
    if NoBareControl(name) && !HoldsSpelling(name, FIRST) {
      forall b: Run | IsOver(b.stats.runtime.deviceName, FIRST) && SameContext(n, a, b)
        ensures b.stats.runtime.deviceName == name
      {
        SameShown(n, a, b);
      }
    } else {
      var other := Twin(name, FIRST);
      Renamed(n, a, other);
    }
  }

  lemma SameShown(n: Numerics, a: Run, b: Run)
    requires ReadsBack(n) && SameContext(n, a, b)
    ensures Shown(b.stats.runtime.deviceName) == Shown(a.stats.runtime.deviceName)
  {
  }

  /** A run that differs in the name of its device alone, and is taken for comparable. */
  lemma Renamed(n: Numerics, a: Run, name: string)
    requires ReadsBack(n) && Shown(name) == Shown(a.stats.runtime.deviceName)
    ensures exists b :: SameContext(n, a, b) && b.stats.runtime.deviceName == name
  {
    hide ReadsBack, Shown, RereadSize;
    var b := a.(stats := a.stats.(runtime := a.stats.runtime.(deviceName := name)));
    assert SameContext(n, a, b);
  }

  /** Between runs whose names hold no bare control the guard is exact. */
  lemma GuardExact(n: Numerics, a: Run, b: Run)
    requires ReadsBack(n)
    requires NoBareControl(a.stats.runtime.deviceName) && NoBareControl(b.stats.runtime.deviceName)
    requires NoBareControl(a.stats.backend) && NoBareControl(b.stats.backend)
    ensures SameContext(n, a, b) <==>
      && a.stats.backend == b.stats.backend
      && a.stats.runtime.deviceName == b.stats.runtime.deviceName
      && RereadSize(n, a.options.inputSize) == RereadSize(n, b.options.inputSize)
      && RereadSize(n, a.options.batchSize) == RereadSize(n, b.options.batchSize)
      && a.stats.cudaGraph == b.stats.cudaGraph
  {
    hide ReadsBack, Shown, RereadSize, NoBareControl;
    PlainNamesApart(a.stats.runtime.deviceName, b.stats.runtime.deviceName);
    PlainNamesApart(a.stats.backend, b.stats.backend);
  }

  /**
   The context guard can be blind: two runs on devices with different names are taken for comparable
   when the names differ only in a control character and the spelling of its escape.
   */
  lemma ContextBlind(n: Numerics, a: Run, b: Run)
    requires ReadsBack(n) && a.stats.runtime.deviceName == [1 as char] && b.stats.runtime.deviceName == "\\u0001"
    requires a.options == b.options && a.stats.backend == b.stats.backend && a.stats.cudaGraph == b.stats.cudaGraph
    ensures a.stats.runtime.deviceName != b.stats.runtime.deviceName && SameContext(n, a, b)
  {
    hide ReadsBack, Shown, RereadSize;
    ShownNotInjective();
  }
}
