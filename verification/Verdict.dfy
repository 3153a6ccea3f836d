/** The exit code of the benchmark program, and its agreement with the document and the gauges. */
module Verdict {
  import opened Results
  import opened Trees
  import opened Metrics
  import opened Emitter
  import opened Document
  import opened Exporter
  import opened Exposition
  import opened Snapshots
  import opened Statistics

  /**
   What `main` returns once a run has been measured and its document written. It decides by itself, and
   comes to the verdict that was written into the document.
   */
  method ExitCode(o: Options, s: Stats) returns (code: nat)
    ensures code in {0, 3, 4, 5}
    ensures code == 5 <==> ValidationFailed(s)
    ensures code in {3, 4} <==> !ValidationFailed(s) && SloPassed(o, s) == Some(false)
    ensures code == 4 ==> Selected(o, s).None?
    ensures code == 3 ==> Selected(o, s).Some? && Selected(o, s).value.p99 > o.targetLatencyUs
    ensures code == ExitOf(o, s)
  {
    if s.validation.Some? && !s.validation.value.passed {
      return 5;
    }
    if o.targetLatencyUs > 0.0 {
      var selected := s.endToEnd;
      if o.targetScope.DeviceCompute? {
        if s.deviceCompute.None? {
          return 4;
        }
        selected := s.deviceCompute.value;
      }
      if selected.p99 > o.targetLatencyUs {
        return 3;
      }
    }
    return 0;
  }

  predicate ValidationFailed(s: Stats) {
    s.validation.Some? && !s.validation.value.passed
  }

  /** The exit code as the verdict in the document has it: a failed one is 4 when nothing was observed. */
  function ExitOf(o: Options, s: Stats): nat {
    if ValidationFailed(s) then 5
    else if SloPassed(o, s) != Some(false) then 0
    else if Selected(o, s).None? then 4
    else 3
  }

  /** The gauges after the exporter has read the emitted document of the run. */
  ghost function GaugesOf(n: Numerics, b: BuildInfo, o: Options, s: Stats): Gauges
    requires ReadsBack(n) && s.runtime.deviceName != ""
  {
    SnapshotEmitted(n, b, o, s);
    RenderGauges(ParseSnapshot(n, MetricsJson(n, b, o, s)).value)
  }

  /** `slo.passed` and `validation.passed` as they are read from a document. */
  function VerdictRead(n: Numerics, doc: string): Result<(Option<bool>, Option<bool>)> {
    var slo :- ObjectOf(doc, "slo");
    var passed :- ParsePassed(slo);
    var validation :- ParseValidation(n, doc);
    Ok((passed, validation.0))
  }

  /**
   The exit code and the document say the same, whatever the run: exit 5 is a validation that the
   document calls failed, exit 3 or 4 a target that it calls missed, and exit 0 neither.
   */
  lemma DocumentVerdict(n: Numerics, b: BuildInfo, o: Options, s: Stats)
    requires ReadsBack(n)
    ensures var read := VerdictRead(n, MetricsJson(n, b, o, s));
      && read.Ok?
      && (ExitOf(o, s) == 5 <==> read.value.1 == Some(false))
      && (ExitOf(o, s) in {3, 4} <==> read.value.1 != Some(false) && read.value.0 == Some(false))
      && (ExitOf(o, s) == 0 <==> read.value.1 != Some(false) && read.value.0 != Some(false))
  {
    hide MetricsJson, Print, SloTree, ParsePassed, ParseValidation, ObjectOf, ReadsBack, SloPassed, Selected;
    SloPassedRead(n, o, s);
    ObjectsRead(n, b, o, s);
  }

  /** The verdict on the target comes back from the document as it was reached. */
  lemma VerdictKept(n: Numerics, b: BuildInfo, o: Options, s: Stats)
    requires ReadsBack(n)
    ensures var read := VerdictRead(n, MetricsJson(n, b, o, s)); read.Ok? && read.value.0 == SloPassed(o, s)
  {
    hide MetricsJson, Print, SloTree, ParsePassed, ParseValidation, ObjectOf, ReadsBack, SloPassed, Selected;
    SloPassedRead(n, o, s);
    ObjectsRead(n, b, o, s);
  }

  /**
   One verdict everywhere: the program exits with 3 or 4 exactly when the gauges read configured and not
   passed, and with 5 exactly when they read validation enabled and not passed. With `DocumentVerdict`
   this is what the document says.
   */
  lemma OneVerdict(n: Numerics, b: BuildInfo, o: Options, s: Stats)
    requires ReadsBack(n) && s.runtime.deviceName != ""
    ensures var g := GaugesOf(n, b, o, s);
      && (ExitOf(o, s) == 5 <==> g.validationEnabled == 1 && g.validationPass == 0)
      && (!ValidationFailed(s) ==>
          && (ExitOf(o, s) in {3, 4} <==> g.sloConfigured == 1 && g.sloPass == 0)
          && (ExitOf(o, s) == 0 <==> g.sloConfigured == 0 || g.sloPass == 1))
  {
    hide MetricsJson, ParseSnapshot, Print, SloTree, ParsePassed, ObjectOf, ReadsBack, ProvenanceOf, ReadingsOf,
         Reread, RereadSize;
    SnapshotEmitted(n, b, o, s);
  }

  /** The other gauges: the target and the observed value as printed, and no validated elements, ever. */
  lemma GaugeValues(n: Numerics, b: BuildInfo, o: Options, s: Stats)
    requires ReadsBack(n) && s.runtime.deviceName != ""
    ensures var g := GaugesOf(n, b, o, s);
      && (g.sloConfigured == 1 <==> o.targetLatencyUs > 0.0)
      && (o.targetLatencyUs > 0.0 ==> g.sloTargetUs == Reread(n, o.targetLatencyUs))
      && g.sloObservedP99Us == Reread(n, if Selected(o, s).Some? then Selected(o, s).value.p99 else s.endToEnd.p99)
      && (g.validationEnabled == 1 <==> s.validation.Some?)
      && g.validationElements == 0
  {
    hide MetricsJson, ParseSnapshot, Print, ReadsBack, ProvenanceOf, Reread, RereadSize;
    SnapshotEmitted(n, b, o, s);
  }

  /**
   What the exit code says about the samples: success under a target leaves only the tail above it,
   a missed target means that at least the tail is above it.
   */
  lemma VerdictTail(o: Options, s: Stats, values: Samples, root: real -> real)
    requires Selected(o, s) == Some(Summary(values, root)) && values != []
    requires o.targetLatencyUs > 0.0 && !ValidationFailed(s)
    ensures var n, x, above := |values|, Position(|values|, 0.99), CountAbove(values, o.targetLatencyUs);
      && ExitOf(o, s) in {0, 3}
      && (ExitOf(o, s) == 0 ==> above <= n - 1 - x.Floor)
      && (ExitOf(o, s) == 3 ==> above >= n - Ceil(x))
  {
    hide Percentile, CountAbove, Position, Sort, Variance, Mean;
    SortSorted(values);
    TailMeaning(values, 0.99, o.targetLatencyUs);
  }
}
