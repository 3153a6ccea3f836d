/** The metrics document of a benchmark run: the tree it stands for, and the emitter that writes it. */
module Emitter {
  import opened Results
  import opened Literals
  import opened Trees
  import opened Fields
  import opened Blocks
  import opened Metrics

  // ---------------------------------------------------------------- the document as a tree

  const NULL := Scalar("null")

  function TextTree(s: string): (j: Json)
    ensures j.Str?
  {
    Str(UnitsOf(s))
  }

  /** Unknown values are written as null. */
  function OptionalText(s: string): (j: Json)
    ensures j.Scalar? || j.Str?
  {
    if s == "" then NULL else TextTree(s)
  }

  function BoolTree(b: bool): (j: Json)
    ensures j.Scalar?
  {
    Scalar(if b then "true" else "false")
  }

  function DistributionLines(n: Numerics, d: Distribution): seq<Line> {
    [ Line(Samples, Scalar(n.decimal(d.samples))),
      Line(Mean, Scalar(n.fixed(d.mean))),
      Line(Min, Scalar(n.fixed(d.min))),
      Line(P50, Scalar(n.fixed(d.p50))),
      Line(P90, Scalar(n.fixed(d.p90))),
      Line(P95, Scalar(n.fixed(d.p95))),
      Line(P99, Scalar(n.fixed(d.p99))),
      Line(Max, Scalar(n.fixed(d.max))),
      Line(Stddev, Scalar(n.fixed(d.stddev))) ]
  }

  function DistributionTree(n: Numerics, d: Distribution): (j: Json)
    ensures j.Object?
  {
    Block(DistributionLines(n, d), "    ")
  }

  function BuildLines(b: BuildInfo): seq<Line> {
    [ Line(Version, TextTree(b.version)), Line(Revision, TextTree(b.revision)) ]
  }

  function BuildTree(b: BuildInfo): (j: Json)
    ensures j.Object?
  {
    Block(BuildLines(b), "  ")
  }

  function EnvironmentLines(n: Numerics, r: Runtime): seq<Line> {
    [ Line(BackendVersion, OptionalText(r.backendVersion)),
      Line(Device, OptionalText(r.deviceName)),
      Line(ComputeCapability, OptionalText(r.computeCapability)),
      Line(CudaRuntime, OptionalText(r.cudaRuntime)),
      Line(CudaDriver, OptionalText(r.cudaDriver)),
      Line(DeviceMemoryBytes, if r.deviceMemoryBytes == 0 then NULL else Scalar(n.decimal(r.deviceMemoryBytes))) ]
  }

  function OptionalDistribution(n: Numerics, d: Option<Distribution>): Json {
    if d.None? then NULL else DistributionTree(n, d.value)
  }

  function EnvironmentTree(n: Numerics, r: Runtime): (j: Json)
    ensures j.Object?
  {
    Block(EnvironmentLines(n, r), "  ")
  }

  function LatencyLines(n: Numerics, s: Stats): seq<Line> {
    [ Line(Field.EndToEnd, DistributionTree(n, s.endToEnd)),
      Line(Field.DeviceCompute, OptionalDistribution(n, s.deviceCompute)) ]
  }

  function LatencyTree(n: Numerics, s: Stats): (j: Json)
    ensures j.Object?
  {
    Block(LatencyLines(n, s), "  ")
  }

  function ValidationLines(n: Numerics, o: Options, v: OutputValidation): seq<Line> {
    [ Line(Kind, TextTree("identity")),
      Line(Tolerance, Scalar(n.fixed(o.validationTolerance))),
      Line(ComparedElements, Scalar(n.decimal(v.comparedElements))),
      Line(Mismatches, Scalar(n.decimal(v.mismatches))),
      Line(MaxAbsError, Scalar(n.fixed(v.maxAbsError))),
      Line(Passed, BoolTree(v.passed)) ]
  }

  function ValidationTree(n: Numerics, o: Options, s: Stats): Json {
    if s.validation.None? then NULL else Block(ValidationLines(n, o, s.validation.value), "  ")
  }

  function ScopeName(scope: Scope): string {
    if scope.DeviceCompute? then "device_compute" else "end_to_end"
  }

  /** The distribution the latency target is about, if it was recorded. */
  function Selected(o: Options, s: Stats): Option<Distribution> {
    if o.targetScope.DeviceCompute? then s.deviceCompute else Some(s.endToEnd)
  }

  /** The verdict on the latency target, if there is one. */
  function SloPassed(o: Options, s: Stats): Option<bool> {
    if o.targetLatencyUs <= 0.0 then None
    else Some(Selected(o, s).Some? && Selected(o, s).value.p99 <= o.targetLatencyUs)
  }

  function SloLines(n: Numerics, o: Options, s: Stats): seq<Line> {
    [ Line(Field.Scope, TextTree(ScopeName(o.targetScope))),
      Line(TargetUs, if o.targetLatencyUs > 0.0 then Scalar(n.fixed(o.targetLatencyUs)) else NULL),
      Line(ObservedP99Us, if Selected(o, s).Some? then Scalar(n.fixed(Selected(o, s).value.p99)) else NULL),
      Line(Passed, if SloPassed(o, s).None? then NULL else BoolTree(SloPassed(o, s).value)) ]
  }

  function SloTree(n: Numerics, o: Options, s: Stats): (j: Json)
    ensures j.Object?
  {
    Block(SloLines(n, o, s), "  ")
  }

  /** How many members the document has. */
  const MEMBERS: nat := 24

  function DocumentLines(n: Numerics, b: BuildInfo, o: Options, s: Stats): (lines: seq<Line>)
    ensures |lines| == MEMBERS
  {
    var e := s.endToEnd;
    [ Line(SchemaVersion, Scalar("2")),
      Line(Build, BuildTree(b)),
      Line(Model, TextTree(o.modelPath)),
      Line(Backend, TextTree(s.backend)),
      Line(RequestedBackend, TextTree(o.requestedBackend)),
      Line(FallbackUsed, BoolTree(o.fallbackUsed)),
      Line(CudaGraph, BoolTree(s.cudaGraph)),
      Line(Environment, EnvironmentTree(n, s.runtime)),
      Line(Samples, Scalar(n.decimal(e.samples))),
      Line(InputSize, Scalar(n.decimal(o.inputSize))),
      Line(BatchSize, Scalar(n.decimal(o.batchSize))),
      Line(LatencyUs, LatencyTree(n, s)),
      Line(MeanUs, Scalar(n.fixed(e.mean))),
      Line(MinUs, Scalar(n.fixed(e.min))),
      Line(P50Us, Scalar(n.fixed(e.p50))),
      Line(P90Us, Scalar(n.fixed(e.p90))),
      Line(P95Us, Scalar(n.fixed(e.p95))),
      Line(P99Us, Scalar(n.fixed(e.p99))),
      Line(MaxUs, Scalar(n.fixed(e.max))),
      Line(StddevUs, Scalar(n.fixed(e.stddev))),
      Line(ThroughputIps, Scalar(n.fixed(s.throughputIps))),
      Line(ThroughputSamplesPerSecond, Scalar(n.fixed(s.throughputSamples))),
      Line(Field.Validation, ValidationTree(n, o, s)),
      Line(Slo, SloTree(n, o, s)) ]
  }

  function DocumentTree(n: Numerics, b: BuildInfo, o: Options, s: Stats): (j: Json)
    ensures j.Object?
  {
    Block(DocumentLines(n, b, o, s), "")
  }

  /** The text of the document: its tree, printed, and a final line break. */
  function MetricsJson(n: Numerics, b: BuildInfo, o: Options, s: Stats): string {
    Print(DocumentTree(n, b, o, s)) + "\n"
  }

  // ---------------------------------------------------------------- the emitter

  /** After `start`, a block stands open with its first `k` lines written. */
  ghost predicate IsOpen(out: string, start: string, lines: seq<Line>, k: nat, pad: string)
    requires k <= |lines|
  {
    out == start + ("{\n" + Front(lines[..k], pad))
  }

  lemma Begin(start: string, lines: seq<Line>, pad: string)
    ensures IsOpen(start + "{\n", start, lines, 0, pad)
  {
    assert lines[..0] == [];
  }

  lemma Extend(out: string, start: string, lines: seq<Line>, k: nat, pad: string, next: string)
    requires k < |lines| && IsOpen(out, start, lines, k, pad)
    requires next == out + Caption(pad, lines[k].field) + Print(lines[k].value) + ",\n"
    ensures IsOpen(next, start, lines, k + 1, pad)
  {
    hide Caption, Print;
    FrontAppend(lines[..k], lines[k], pad);
    assert lines[..k] + [lines[k]] == lines[..k + 1];
    Rejoin(start, "{\n", Front(lines[..k], pad), Caption(pad, lines[k].field), Print(lines[k].value), ",\n");
  }

  lemma Rejoin(a: string, b: string, c: string, d: string, e: string, f: string)
    ensures a + (b + c) + d + e + f == a + (b + (c + d + e + f))
  {
  }

  lemma Finish(out: string, start: string, lines: seq<Line>, pad: string, next: string)
    requires lines != [] && IsOpen(out, start, lines, |lines| - 1, pad)
    requires var line := lines[|lines| - 1];
      next == out + Caption(pad, line.field) + Print(line.value) + "\n" + pad + "}"
    ensures next == start + Print(Block(lines, pad))
  {
    hide Caption, Print, Front, Block;
    var k := |lines| - 1;
    BlockPrinted(lines[..k], lines[k], pad);
    assert lines[..k] + [lines[k]] == lines;
    Reclose(start, Front(lines[..k], pad), Caption(pad, lines[k].field), Print(lines[k].value), pad);
  }

  lemma Reclose(a: string, c: string, d: string, e: string, pad: string)
    ensures a + ("{\n" + c) + d + e + "\n" + pad + "}" == a + ("{\n" + c + d + e + "\n" + pad + "}")
  {
  }

  method WriteDistribution(n: Numerics, start: string, d: Distribution) returns (out: string)
    ensures out == start + Print(DistributionTree(n, d))
  {
    hide Caption, Front, IsOpen;
    var pad := "    ";
    ghost var lines := DistributionLines(n, d);
    out := start + "{\n";
    Begin(start, lines, pad);
    ghost var before := out;
    out := out + Caption(pad, Samples) + n.decimal(d.samples) + ",\n";
    Extend(before, start, lines, 0, pad, out); before := out;
    out := out + Caption(pad, Mean) + n.fixed(d.mean) + ",\n";
    Extend(before, start, lines, 1, pad, out); before := out;
    out := out + Caption(pad, Min) + n.fixed(d.min) + ",\n";
    Extend(before, start, lines, 2, pad, out); before := out;
    out := out + Caption(pad, P50) + n.fixed(d.p50) + ",\n";
    Extend(before, start, lines, 3, pad, out); before := out;
    out := out + Caption(pad, P90) + n.fixed(d.p90) + ",\n";
    Extend(before, start, lines, 4, pad, out); before := out;
    out := out + Caption(pad, P95) + n.fixed(d.p95) + ",\n";
    Extend(before, start, lines, 5, pad, out); before := out;
    out := out + Caption(pad, P99) + n.fixed(d.p99) + ",\n";
    Extend(before, start, lines, 6, pad, out); before := out;
    out := out + Caption(pad, Max) + n.fixed(d.max) + ",\n";
    Extend(before, start, lines, 7, pad, out); before := out;
    out := out + Caption(pad, Stddev) + n.fixed(d.stddev) + "\n" + pad + "}";
    Finish(before, start, lines, pad, out);
  }

  method WriteBuild(start: string, b: BuildInfo) returns (out: string)
    ensures out == start + Print(BuildTree(b))
  {
    hide Caption, Front, IsOpen, Print, TextTree, Quoted, OptionalText, OptionalQuoted, Block;
    var pad := "  ";
    ghost var lines := BuildLines(b);
    out := start + "{\n";
    Begin(start, lines, pad);
    ghost var before := out;
    out := out + Caption(pad, Version) + Quoted(b.version) + ",\n";
    Extend(before, start, lines, 0, pad, out); before := out;
    out := out + Caption(pad, Revision) + Quoted(b.revision) + "\n" + pad + "}";
    Finish(before, start, lines, pad, out);
  }

  /** A string between quotes. */
  function Quoted(s: string): (w: string)
    ensures w == Print(TextTree(s))
  {
    "\"" + EscapeJson(s) + "\""
  }

  /** A quoted string, or null when it is empty. */
  function OptionalQuoted(s: string): (w: string)
    ensures w == Print(OptionalText(s))
  {
    if s == "" then "null" else Quoted(s)
  }

  method WriteEnvironment(n: Numerics, start: string, r: Runtime) returns (out: string)
    ensures out == start + Print(EnvironmentTree(n, r))
  {
    hide Caption, Front, IsOpen, Print, TextTree, Quoted, OptionalText, OptionalQuoted, Block;
    var pad := "  ";
    ghost var lines := EnvironmentLines(n, r);
    out := start + "{\n";
    Begin(start, lines, pad);
    ghost var before := out;
    out := out + Caption(pad, BackendVersion) + OptionalQuoted(r.backendVersion) + ",\n";
    Extend(before, start, lines, 0, pad, out); before := out;
    out := out + Caption(pad, Device) + OptionalQuoted(r.deviceName) + ",\n";
    Extend(before, start, lines, 1, pad, out); before := out;
    out := out + Caption(pad, ComputeCapability) + OptionalQuoted(r.computeCapability) + ",\n";
    Extend(before, start, lines, 2, pad, out); before := out;
    out := out + Caption(pad, CudaRuntime) + OptionalQuoted(r.cudaRuntime) + ",\n";
    Extend(before, start, lines, 3, pad, out); before := out;
    out := out + Caption(pad, CudaDriver) + OptionalQuoted(r.cudaDriver) + ",\n";
    Extend(before, start, lines, 4, pad, out); before := out;
    var memory := if r.deviceMemoryBytes == 0 then "null" else n.decimal(r.deviceMemoryBytes);
    out := out + Caption(pad, DeviceMemoryBytes) + memory + "\n" + pad + "}";
    Finish(before, start, lines, pad, out);
  }

  method WriteLatency(n: Numerics, start: string, s: Stats) returns (out: string)
    ensures out == start + Print(LatencyTree(n, s))
  {
    hide Caption, Front, IsOpen, DistributionTree, Print, Block;
    var pad := "  ";
    ghost var lines := LatencyLines(n, s);
    out := start + "{\n";
    Begin(start, lines, pad);
    ghost var before := out;
    out := WriteDistribution(n, out + Caption(pad, Field.EndToEnd), s.endToEnd);
    out := out + ",\n";
    Extend(before, start, lines, 0, pad, out); before := out;
    out := out + Caption(pad, Field.DeviceCompute);
    if s.deviceCompute.Some? {
      out := WriteDistribution(n, out, s.deviceCompute.value);
    } else {
      out := out + "null";
    }
    out := out + "\n" + pad + "}";
    Finish(before, start, lines, pad, out);
  }

  method WriteValidation(n: Numerics, start: string, o: Options, s: Stats) returns (out: string)
    ensures out == start + Print(ValidationTree(n, o, s))
  {
    hide Caption, Front, IsOpen, Print, TextTree, Quoted, OptionalText, OptionalQuoted, Block;
    if s.validation.None? {
      return start + "null";
    }
    var v := s.validation.value;
    var pad := "  ";
    ghost var lines := ValidationLines(n, o, v);
    out := start + "{\n";
    Begin(start, lines, pad);
    ghost var before := out;
    out := out + Caption(pad, Kind) + Quoted("identity") + ",\n";
    Extend(before, start, lines, 0, pad, out); before := out;
    out := out + Caption(pad, Tolerance) + n.fixed(o.validationTolerance) + ",\n";
    Extend(before, start, lines, 1, pad, out); before := out;
    out := out + Caption(pad, ComparedElements) + n.decimal(v.comparedElements) + ",\n";
    Extend(before, start, lines, 2, pad, out); before := out;
    out := out + Caption(pad, Mismatches) + n.decimal(v.mismatches) + ",\n";
    Extend(before, start, lines, 3, pad, out); before := out;
    out := out + Caption(pad, MaxAbsError) + n.fixed(v.maxAbsError) + ",\n";
    Extend(before, start, lines, 4, pad, out); before := out;
    out := out + Caption(pad, Passed) + (if v.passed then "true" else "false") + "\n" + pad + "}";
    Finish(before, start, lines, pad, out);
  }

  method WriteSlo(n: Numerics, start: string, o: Options, s: Stats) returns (out: string)
    ensures out == start + Print(SloTree(n, o, s))
  {
    hide Caption, Front, IsOpen, Print, TextTree, Quoted, OptionalText, OptionalQuoted, Block;
    var selected := s.endToEnd;
    var available := true;
    if o.targetScope.DeviceCompute? {
      available := s.deviceCompute.Some?;
      if available {
        selected := s.deviceCompute.value;
      }
    }
    var pad := "  ";
    ghost var lines := SloLines(n, o, s);
    out := start + "{\n";
    Begin(start, lines, pad);
    ghost var before := out;
    out := out + Caption(pad, Field.Scope) + Quoted(ScopeName(o.targetScope)) + ",\n";
    Extend(before, start, lines, 0, pad, out); before := out;
    var target := if o.targetLatencyUs > 0.0 then n.fixed(o.targetLatencyUs) else "null";
    out := out + Caption(pad, TargetUs) + target + ",\n";
    Extend(before, start, lines, 1, pad, out); before := out;
    out := out + Caption(pad, ObservedP99Us) + (if available then n.fixed(selected.p99) else "null") + ",\n";
    Extend(before, start, lines, 2, pad, out); before := out;
    out := out + Caption(pad, Passed);
    if o.targetLatencyUs <= 0.0 {
      out := out + "null";
    } else {
      out := out + if available && selected.p99 <= o.targetLatencyUs then "true" else "false";
    }
    out := out + "\n" + pad + "}";
    Finish(before, start, lines, pad, out);
  }

  /** The start of the document: what was run. */
  method WriteProvenance(n: Numerics, b: BuildInfo, o: Options, s: Stats) returns (out: string)
    ensures IsOpen(out, "", DocumentLines(n, b, o, s), 7, "")
  {
    hide Caption, Front, IsOpen, Print, TextTree, Quoted, Block, BuildTree, EnvironmentTree, LatencyTree, SloTree,
         ValidationTree;
    var pad, e := "", s.endToEnd;
    ghost var lines := DocumentLines(n, b, o, s);
    out := "" + "{\n";
    Begin("", lines, pad);
    ghost var before := out;
    out := out + Caption(pad, SchemaVersion) + "2" + ",\n";
    Extend(before, "", lines, 0, pad, out); before := out;
    out := WriteBuild(out + Caption(pad, Build), b);
    out := out + ",\n";
    Extend(before, "", lines, 1, pad, out); before := out;
    out := out + Caption(pad, Model) + Quoted(o.modelPath) + ",\n";
    Extend(before, "", lines, 2, pad, out); before := out;
    out := out + Caption(pad, Backend) + Quoted(s.backend) + ",\n";
    Extend(before, "", lines, 3, pad, out); before := out;
    out := out + Caption(pad, RequestedBackend) + Quoted(o.requestedBackend) + ",\n";
    Extend(before, "", lines, 4, pad, out); before := out;
    out := out + Caption(pad, FallbackUsed) + (if o.fallbackUsed then "true" else "false") + ",\n";
    Extend(before, "", lines, 5, pad, out); before := out;
    out := out + Caption(pad, CudaGraph) + (if s.cudaGraph then "true" else "false") + ",\n";
    Extend(before, "", lines, 6, pad, out); before := out;
  }

  /** The environment, the sizes and the latency distributions. */
  method WriteMeasurements(n: Numerics, b: BuildInfo, o: Options, s: Stats, start: string) returns (out: string)
    requires IsOpen(start, "", DocumentLines(n, b, o, s), 7, "")
    ensures IsOpen(out, "", DocumentLines(n, b, o, s), 12, "")
  {
    hide Caption, Front, IsOpen, Print, TextTree, Quoted, Block, BuildTree, EnvironmentTree, LatencyTree, SloTree,
         ValidationTree;
    var pad, e := "", s.endToEnd;
    ghost var lines := DocumentLines(n, b, o, s);
    out := start;
    ghost var before := out;
    out := WriteEnvironment(n, out + Caption(pad, Environment), s.runtime);
    out := out + ",\n";
    Extend(before, "", lines, 7, pad, out); before := out;
    out := out + Caption(pad, Samples) + n.decimal(e.samples) + ",\n";
    Extend(before, "", lines, 8, pad, out); before := out;
    out := out + Caption(pad, InputSize) + n.decimal(o.inputSize) + ",\n";
    Extend(before, "", lines, 9, pad, out); before := out;
    out := out + Caption(pad, BatchSize) + n.decimal(o.batchSize) + ",\n";
    Extend(before, "", lines, 10, pad, out); before := out;
    out := WriteLatency(n, out + Caption(pad, LatencyUs), s);
    out := out + ",\n";
    Extend(before, "", lines, 11, pad, out); before := out;
  }

  /** The flat aliases of the end-to-end distribution. */
  method WriteAliases(n: Numerics, b: BuildInfo, o: Options, s: Stats, start: string) returns (out: string)
    requires IsOpen(start, "", DocumentLines(n, b, o, s), 12, "")
    ensures IsOpen(out, "", DocumentLines(n, b, o, s), 20, "")
  {
    hide Caption, Front, IsOpen, Print, TextTree, Quoted, Block, BuildTree, EnvironmentTree, LatencyTree, SloTree,
         ValidationTree;
    var pad, e := "", s.endToEnd;
    ghost var lines := DocumentLines(n, b, o, s);
    out := start;
    ghost var before := out;
    out := out + Caption(pad, MeanUs) + n.fixed(e.mean) + ",\n";
    Extend(before, "", lines, 12, pad, out); before := out;
    out := out + Caption(pad, MinUs) + n.fixed(e.min) + ",\n";
    Extend(before, "", lines, 13, pad, out); before := out;
    out := out + Caption(pad, P50Us) + n.fixed(e.p50) + ",\n";
    Extend(before, "", lines, 14, pad, out); before := out;
    out := out + Caption(pad, P90Us) + n.fixed(e.p90) + ",\n";
    Extend(before, "", lines, 15, pad, out); before := out;
    out := out + Caption(pad, P95Us) + n.fixed(e.p95) + ",\n";
    Extend(before, "", lines, 16, pad, out); before := out;
    out := out + Caption(pad, P99Us) + n.fixed(e.p99) + ",\n";
    Extend(before, "", lines, 17, pad, out); before := out;
    out := out + Caption(pad, MaxUs) + n.fixed(e.max) + ",\n";
    Extend(before, "", lines, 18, pad, out); before := out;
    out := out + Caption(pad, StddevUs) + n.fixed(e.stddev) + ",\n";
    Extend(before, "", lines, 19, pad, out); before := out;
  }

  /** Throughput, validation and the verdict. */
  method WriteResults(n: Numerics, b: BuildInfo, o: Options, s: Stats, start: string) returns (out: string)
    requires IsOpen(start, "", DocumentLines(n, b, o, s), 20, "")
    ensures out == "" + Print(DocumentTree(n, b, o, s))
  {
    hide Caption, Front, IsOpen, Print, TextTree, Quoted, Block, BuildTree, EnvironmentTree, LatencyTree, SloTree,
         ValidationTree;
    var pad := "";
    ghost var lines := DocumentLines(n, b, o, s);
    out := start;
    ghost var before := out;
    out := out + Caption(pad, ThroughputIps) + n.fixed(s.throughputIps) + ",\n";
    Extend(before, "", lines, 20, pad, out); before := out;
    out := out + Caption(pad, ThroughputSamplesPerSecond) + n.fixed(s.throughputSamples) + ",\n";
    Extend(before, "", lines, 21, pad, out); before := out;
    out := WriteValidation(n, out + Caption(pad, Field.Validation), o, s);
    out := out + ",\n";
    Extend(before, "", lines, 22, pad, out); before := out;
    out := WriteSlo(n, out + Caption(pad, Slo), o, s);
    out := out + "\n" + pad + "}";
    Finish(before, "", lines, pad, out);
  }

  /** The emitter writes exactly the printed document tree. */
  method FormatMetricsJson(n: Numerics, b: BuildInfo, o: Options, s: Stats) returns (out: string)
    ensures out == MetricsJson(n, b, o, s)
  {
    hide Print, DocumentTree, DocumentLines, IsOpen;
    out := WriteProvenance(n, b, o, s);
    out := WriteMeasurements(n, b, o, s, out);
    out := WriteAliases(n, b, o, s, out);
    out := WriteResults(n, b, o, s, out);
    out := out + "\n";
    var w := Print(DocumentTree(n, b, o, s));
    assert "" + w == w;
  }
}
