/** The regression comparator: what it reads from a metrics document, and how it decides. */
module Comparator {
  import opened Results
  import opened Text
  import opened Literals
  import opened Trees
  import opened Fields
  import opened Blocks
  import opened Metrics
  import opened Emitter
  import opened Document
  import opened Reader

  datatype RunMetrics = RunMetrics(
    latencyUs: real, backend: string, device: string, inputSize: int, batchSize: int, cudaGraph: bool)

  function NumberAt(n: Numerics, t: string, position: nat): Result<real> {
    var token :- TokenValue(t, position);
    match n.strtod(token)
    case Some(x) => Ok(x)
    case None => Fail(ExpectedNumber)
  }

  function ExactUnsigned(n: Numerics, t: string, position: nat): Result<int> {
    var x :- NumberAt(n, t, position);
    if IsUnsigned(x) then Ok(x.Floor) else Fail(NotUnsigned)
  }

  function ParseMetrics(n: Numerics, document: string, scope: string, metric: string): Result<RunMetrics> {
    var root :- RootObject(document);
    var latencyAt :- Required(document, root, "latency_us");
    var latency :- ObjectAt(document, latencyAt);
    var scopeKey := if scope == "e2e" then "end_to_end" else "device_compute";
    var scopeAt :- Required(document, latency, scopeKey);
    if StartsWith(document, scopeAt, "null") then Fail(NullScope)
    else
      var distribution :- ObjectAt(document, scopeAt);
      var environmentAt :- Required(document, root, "environment");
      var environment :- ObjectAt(document, environmentAt);
      ReadContext(n, document, root, distribution, environment, metric)
  }

  /** The six values, in the order in which they are read. */
  function ReadContext(
    n: Numerics, t: string, root: Span, distribution: Span, environment: Span, metric: string): Result<RunMetrics>
    requires Encloses(t, root)
    requires Encloses(t, distribution)
    requires Encloses(t, environment)
  {
    var latencyAt :- Required(t, distribution, metric);
    var latencyUs :- NumberAt(n, t, latencyAt);
    var backendAt :- Required(t, root, "backend");
    var backend :- StringValue(t, backendAt);
    var deviceAt :- Required(t, environment, "device");
    var device :- StringValue(t, deviceAt);
    var inputAt :- Required(t, root, "input_size");
    var inputSize :- ExactUnsigned(n, t, inputAt);
    var batchAt :- Required(t, root, "batch_size");
    var batchSize :- ExactUnsigned(n, t, batchAt);
    var graphAt :- Required(t, root, "cuda_graph");
    var cudaGraph :- BoolValue(t, graphAt);
    Ok(RunMetrics(latencyUs, backend, device, inputSize, batchSize, cudaGraph))
  }

  /** The comparator refuses every printed document with anything but whitespace behind it. */
  lemma TrailingRefused(n: Numerics, before: string, j: Json, after: string, scope: string, metric: string)
    requires j.Object? && ValidJson(j) && AllSpace(before) && !AllSpace(after)
    ensures ParseMetrics(n, before + Print(j) + after, scope, metric) == Fail(TrailingContent)
  {
    hide Print, ValidJson, RootObject, Required, ObjectAt, ReadContext, AllSpace;
    RootDecides(before, j, after);
  }

  // ---------------------------------------------------------------- on emitted documents

  /** The names `--metric` accepts. */
  datatype Metric = MeanOf | P50Of | P90Of | P95Of | P99Of | MaxOf

  function MetricField(m: Metric): Field {
    match m
    case MeanOf => Mean
    case P50Of => P50
    case P90Of => P90
    case P95Of => P95
    case P99Of => P99
    case MaxOf => Max
  }

  function MetricOf(d: Distribution, m: Metric): real {
    match m
    case MeanOf => d.mean
    case P50Of => d.p50
    case P90Of => d.p90
    case P95Of => d.p95
    case P99Of => d.p99
    case MaxOf => d.max
  }

  function ScopeArgument(scope: Scope): string {
    if scope.EndToEnd? then "e2e" else "device"
  }

  function Recorded(s: Stats, scope: Scope): Option<Distribution> {
    if scope.EndToEnd? then Some(s.endToEnd) else s.deviceCompute
  }

  lemma NumberStands(n: Numerics, t: string, v: nat, w: string)
    requires Stands(t, v, Scalar(w)) && IsNumeral(w) && n.strtod(w).Some?
    ensures NumberAt(n, t, v) == Ok(n.strtod(w).value)
  {
    hide Stands, SkipValue, SkipSpace;
    OnNumber(t, v, w);
  }

  lemma SizeStands(n: Numerics, t: string, v: nat, k: Size)
    requires ReadsBack(n) && Stands(t, v, Scalar(n.decimal(k)))
    ensures ExactUnsigned(n, t, v) == Ok(RereadSize(n, k))
  {
    hide Stands, NumberAt, IsNumeral;
    NumberStands(n, t, v, n.decimal(k));
  }

  lemma BoolStands(t: string, v: nat, b: bool)
    requires Stands(t, v, BoolTree(b))
    ensures BoolValue(t, v) == Ok(b)
  {
    hide Stands, SkipSpace, At;
    OnBool(t, v, b);
  }

  /** The selected statistic of a printed distribution. */
  lemma MetricMember(n: Numerics, t: string, p: nat, d: Distribution, m: Metric) returns (v: nat)
    requires ReadsBack(n) && Stands(t, p, DistributionTree(n, d))
    ensures var span := SpanOf(p, DistributionTree(n, d));
      && Encloses(t, span)
      && Required(t, span, Name(MetricField(m))) == Ok(v)
      && NumberAt(n, t, v) == Ok(Reread(n, MetricOf(d, m)))
  {
    hide ValidJson, Block, Print, Required, NumberAt, At, Name, IsNumeral;
    DistributionValid(n, d);
    var k := match m case MeanOf => 1 case P50Of => 3 case P90Of => 4 case P95Of => 5 case P99Of => 6 case MaxOf => 7;
    var lines := DistributionLines(n, d);
    assert IsFirst(lines, k);
    v := BlockMember(t, p, lines, "    ", k);
    NumberStands(n, t, v, n.fixed(MetricOf(d, m)));
  }

  /** Any field of the root of an emitted document. */
  lemma RootMember(n: Numerics, b: BuildInfo, o: Options, s: Stats, t: string, k: nat) returns (v: nat)
    requires ReadsBack(n) && t == MetricsJson(n, b, o, s) && k < MEMBERS
    ensures var root := SpanOf(0, DocumentTree(n, b, o, s));
      && Encloses(t, root)
      && RootObject(t) == Ok(root)
      && Required(t, root, Name(DocumentLines(n, b, o, s)[k].field)) == Ok(v)
    ensures Stands(t, v, DocumentLines(n, b, o, s)[k].value)
  {
    hide ValidJson, Block, Print, Required, At, Name, Stands, ReadsBack, RootObject, MetricsJson, DocumentLines,
         IsFirst;
    DocumentValid(n, b, o, s);
    RootFound(n, b, o, s, t);
    DocumentDistinct(n, b, o, s, k);
    v := BlockMember(t, 0, DocumentLines(n, b, o, s), "", k);
  }

  /** Which lines the comparator asks for. */
  lemma ContextLines(n: Numerics, b: BuildInfo, o: Options, s: Stats)
    ensures var lines := DocumentLines(n, b, o, s);
      && |lines| == 24
      && lines[3] == Line(Backend, TextTree(s.backend))
      && lines[6] == Line(CudaGraph, BoolTree(s.cudaGraph))
      && lines[7] == Line(Environment, EnvironmentTree(n, s.runtime))
      && lines[9] == Line(InputSize, Scalar(n.decimal(o.inputSize)))
      && lines[10] == Line(BatchSize, Scalar(n.decimal(o.batchSize)))
      && lines[11] == Line(LatencyUs, LatencyTree(n, s))
  {
    hide Block, TextTree, BoolTree, ValidationTree, BuildTree, EnvironmentTree, LatencyTree, SloTree;
  }

  /** The context fields at the root. */
  lemma RootContext(n: Numerics, b: BuildInfo, o: Options, s: Stats, t: string)
    returns (backendAt: nat, inputAt: nat, batchAt: nat, graphAt: nat, latencyAt: nat, environmentAt: nat)
    requires ReadsBack(n) && t == MetricsJson(n, b, o, s)
    ensures var root := SpanOf(0, DocumentTree(n, b, o, s));
      && Encloses(t, root)
      && RootObject(t) == Ok(root)
      && Required(t, root, "backend") == Ok(backendAt)
      && Required(t, root, "input_size") == Ok(inputAt)
      && Required(t, root, "batch_size") == Ok(batchAt)
      && Required(t, root, "cuda_graph") == Ok(graphAt)
      && Required(t, root, "latency_us") == Ok(latencyAt)
      && Required(t, root, "environment") == Ok(environmentAt)
    ensures Stands(t, backendAt, TextTree(s.backend))
    ensures Stands(t, inputAt, Scalar(n.decimal(o.inputSize)))
    ensures Stands(t, batchAt, Scalar(n.decimal(o.batchSize)))
    ensures Stands(t, graphAt, BoolTree(s.cudaGraph))
    ensures Stands(t, latencyAt, LatencyTree(n, s))
    ensures Stands(t, environmentAt, EnvironmentTree(n, s.runtime))
  {
    hide ValidJson, Block, Print, Required, At, Stands, ReadsBack, RootObject, MetricsJson, DocumentTree, TextTree,
         BoolTree, DocumentLines, EnvironmentTree, LatencyTree, Encloses, SpanOf;
    ContextLines(n, b, o, s);
    backendAt := RootMember(n, b, o, s, t, 3);
    graphAt := RootMember(n, b, o, s, t, 6);
    environmentAt := RootMember(n, b, o, s, t, 7);
    inputAt := RootMember(n, b, o, s, t, 9);
    batchAt := RootMember(n, b, o, s, t, 10);
    latencyAt := RootMember(n, b, o, s, t, 11);
  }

  /** The device name, which is null when it is unknown. */
  lemma DeviceMember(n: Numerics, r: Runtime, t: string, p: nat) returns (v: nat)
    requires ReadsBack(n) && Stands(t, p, EnvironmentTree(n, r))
    ensures var span := SpanOf(p, EnvironmentTree(n, r));
      && Encloses(t, span)
      && ObjectAt(t, p) == Ok(span)
      && Required(t, span, "device") == Ok(v)
    ensures StringValue(t, v) == if r.deviceName == "" then Fail(ExpectedString) else Ok(Shown(r.deviceName))
  {
    hide ValidJson, Block, Print, Required, At, ObjectAt, StringValue, OptionalText, SkipSpace, EnvironmentLines,
         ReadsBack, Name, Encloses, Shown, Ended;
    EnvironmentValid(n, r);
    DeviceLine(n, r);
    v := BlockMember(t, p, EnvironmentLines(n, r), "  ", 1);
    OptionalTextStands(t, v, r.deviceName);
  }

  lemma DeviceLine(n: Numerics, r: Runtime)
    ensures |EnvironmentLines(n, r)| == 6 && IsFirst(EnvironmentLines(n, r), 1)
    ensures EnvironmentLines(n, r)[1].value == OptionalText(r.deviceName)
    ensures Name(EnvironmentLines(n, r)[1].field) == "device"
  {
    hide OptionalText;
  }

  lemma OptionalTextStands(t: string, v: nat, s: string)
    requires Stands(t, v, OptionalText(s))
    ensures StringValue(t, v) == if s == "" then Fail(ExpectedString) else Ok(Shown(s))
  {
    hide Stands, TextTree, Shown, StringValue;
    if s == "" {
      OnNull(t, v);
    } else {
      OnText(t, v, s);
    }
  }

  lemma ScopeField(scope: Scope)
    ensures Name(if scope.EndToEnd? then Field.EndToEnd else Field.DeviceCompute) == ScopeName(scope)
  {
  }

  /** The distribution of a scope, which is null when it was not recorded. */
  lemma ScopeMember(n: Numerics, s: Stats, t: string, p: nat, scope: Scope) returns (v: nat)
    requires ReadsBack(n) && Stands(t, p, LatencyTree(n, s))
    ensures var span := SpanOf(p, LatencyTree(n, s));
      && Encloses(t, span)
      && ObjectAt(t, p) == Ok(span)
      && Required(t, span, ScopeName(scope)) == Ok(v)
    ensures StartsWith(t, v, "null") <==> Recorded(s, scope).None?
    ensures Recorded(s, scope).Some? ==>
      var j := DistributionTree(n, Recorded(s, scope).value);
      Stands(t, v, j) && ObjectAt(t, v) == Ok(SpanOf(v, j))
  {
    hide ValidJson, Block, Print, Required, At, ObjectAt, SkipSpace, DistributionTree, ReadsBack, Ended, Name,
         ScopeName;
    LatencyValid(n, s);
    var k := if scope.EndToEnd? then 0 else 1;
    var lines := LatencyLines(n, s);
    assert lines[k].value == OptionalDistribution(n, Recorded(s, scope)) && IsFirst(lines, k);
    ScopeField(scope);
    v := BlockMember(t, p, lines, "  ", k);
    if Recorded(s, scope).Some? {
      OnObject(t, v, DistributionTree(n, Recorded(s, scope).value));
    } else {
      OnNull(t, v);
    }
  }

  /** What the comparator should learn from a run whose selected distribution is `d`. */
  ghost function Context(n: Numerics, o: Options, s: Stats, d: Distribution, m: Metric): RunMetrics
    requires ReadsBack(n)
  {
    RunMetrics(Reread(n, MetricOf(d, m)), Shown(s.backend), Shown(s.runtime.deviceName),
               RereadSize(n, o.inputSize), RereadSize(n, o.batchSize), s.cudaGraph)
  }

  /**
   End-to-end round trip: for every run, scope and metric, parsing the emitted document gives exactly
   the values printed for them. A scope that was not recorded is refused, and so is a run whose
   device is unknown.
   */
  lemma ParseEmitted(n: Numerics, b: BuildInfo, o: Options, s: Stats, scope: Scope, m: Metric)
    requires ReadsBack(n)
    ensures ParseMetrics(n, MetricsJson(n, b, o, s), ScopeArgument(scope), Name(MetricField(m))) ==
      if Recorded(s, scope).None? then Fail(NullScope)
      else if s.runtime.deviceName == "" then Fail(ExpectedString)
      else Ok(Context(n, o, s, Recorded(s, scope).value, m))
  {
    hide ValidJson, Block, Print, Required, At, Stands, ReadsBack, RootObject, MetricsJson, DocumentTree, TextTree,
         BoolTree, DistributionTree, Encloses, ObjectAt, StringValue, BoolValue, NumberAt, ExactUnsigned, SkipSpace,
         EnvironmentTree, LatencyTree, StartsWith, Reread, RereadSize, Context, Name, ReadContext;
    var t := MetricsJson(n, b, o, s);
    var backendAt, inputAt, batchAt, graphAt, latencyAt, environmentAt := RootContext(n, b, o, s, t);
    var scopeAt := ScopeMember(n, s, t, latencyAt, scope);
    ScopeArguments(scope);
    if Recorded(s, scope).Some? {
      var d := Recorded(s, scope).value;
      ContextRead(n, b, o, s, t, d, m, scopeAt, environmentAt, backendAt, inputAt, batchAt, graphAt);
      var deviceAt := DeviceMember(n, s.runtime, t, environmentAt);
    }
  }

  lemma ScopeArguments(scope: Scope)
    ensures ScopeName(scope) == if ScopeArgument(scope) == "e2e" then "end_to_end" else "device_compute"
  {
    assert "device" != "e2e";
  }

  lemma ContextRead(n: Numerics, b: BuildInfo, o: Options, s: Stats, t: string, d: Distribution, m: Metric,
                    distributionAt: nat, environmentAt: nat, backendAt: nat, inputAt: nat, batchAt: nat, graphAt: nat)
    requires ReadsBack(n)
    requires Encloses(t, SpanOf(0, DocumentTree(n, b, o, s)))
    requires Stands(t, distributionAt, DistributionTree(n, d))
    requires Stands(t, environmentAt, EnvironmentTree(n, s.runtime))
    requires var root := SpanOf(0, DocumentTree(n, b, o, s));
      && Required(t, root, "backend") == Ok(backendAt)
      && Required(t, root, "input_size") == Ok(inputAt)
      && Required(t, root, "batch_size") == Ok(batchAt)
      && Required(t, root, "cuda_graph") == Ok(graphAt)
    requires Stands(t, backendAt, TextTree(s.backend))
    requires Stands(t, inputAt, Scalar(n.decimal(o.inputSize)))
    requires Stands(t, batchAt, Scalar(n.decimal(o.batchSize)))
    requires Stands(t, graphAt, BoolTree(s.cudaGraph))
    ensures Encloses(t, SpanOf(distributionAt, DistributionTree(n, d)))
    ensures Encloses(t, SpanOf(environmentAt, EnvironmentTree(n, s.runtime)))
    ensures ReadContext(n, t, SpanOf(0, DocumentTree(n, b, o, s)), SpanOf(distributionAt, DistributionTree(n, d)),
                        SpanOf(environmentAt, EnvironmentTree(n, s.runtime)), Name(MetricField(m))) ==
            if s.runtime.deviceName == "" then Fail(ExpectedString) else Ok(Context(n, o, s, d, m))
  {
    hide ValidJson, Block, Print, Required, At, Stands, ReadsBack, DocumentTree, TextTree, BoolTree, DistributionTree,
         Encloses, ObjectAt, StringValue, BoolValue, NumberAt, ExactUnsigned, SkipSpace, EnvironmentTree, Reread,
         RereadSize, Name;
    var metricAt := MetricMember(n, t, distributionAt, d, m);
    var deviceAt := DeviceMember(n, s.runtime, t, environmentAt);
    OnText(t, backendAt, s.backend);
    SizeStands(n, t, inputAt, o.inputSize);
    SizeStands(n, t, batchAt, o.batchSize);
    BoolStands(t, graphAt, s.cudaGraph);
  }

  /** The same for each metric and scope by its own name. */
  lemma MetricsPlain(n: Numerics, b: BuildInfo, o: Options, s: Stats, scope: string)
    requires ReadsBack(n) && s.runtime.deviceName != "" && scope in ["e2e", "device"]
    requires scope == "device" ==> s.deviceCompute.Some?
    ensures var doc, d := MetricsJson(n, b, o, s), if scope == "e2e" then s.endToEnd else s.deviceCompute.value;
      && ReadsAs(n, o, s, ParseMetrics(n, doc, scope, "mean"), d.mean)
      && ReadsAs(n, o, s, ParseMetrics(n, doc, scope, "p50"), d.p50)
      && ReadsAs(n, o, s, ParseMetrics(n, doc, scope, "p90"), d.p90)
      && ReadsAs(n, o, s, ParseMetrics(n, doc, scope, "p95"), d.p95)
      && ReadsAs(n, o, s, ParseMetrics(n, doc, scope, "p99"), d.p99)
      && ReadsAs(n, o, s, ParseMetrics(n, doc, scope, "max"), d.max)
  {
    hide MetricsJson, ParseMetrics, ReadsBack, Reread, RereadSize, Shown, Name;
    var k := if scope == "e2e" then Scope.EndToEnd else Scope.DeviceCompute;
    ScopeArguments(k);
    MetricNames();
    ParseEmitted(n, b, o, s, k, MeanOf);
    ParseEmitted(n, b, o, s, k, P50Of);
    ParseEmitted(n, b, o, s, k, P90Of);
    ParseEmitted(n, b, o, s, k, P95Of);
    ParseEmitted(n, b, o, s, k, P99Of);
    ParseEmitted(n, b, o, s, k, MaxOf);
  }

  lemma MetricNames()
    ensures Name(MetricField(MeanOf)) == "mean" && Name(MetricField(MaxOf)) == "max"
    ensures Name(MetricField(P50Of)) == "p50" && Name(MetricField(P90Of)) == "p90"
    ensures Name(MetricField(P95Of)) == "p95" && Name(MetricField(P99Of)) == "p99"
  {
  }

  /** A document read for a statistic `x`, with the context of its run. */
  ghost predicate ReadsAs(n: Numerics, o: Options, s: Stats, r: Result<RunMetrics>, x: real)
    requires ReadsBack(n)
  {
    r == Ok(RunMetrics(
      latencyUs := Reread(n, x), backend := Shown(s.backend), device := Shown(s.runtime.deviceName),
      inputSize := RereadSize(n, o.inputSize), batchSize := RereadSize(n, o.batchSize), cudaGraph := s.cudaGraph))
  }
}
