/** The members of the document that neither reader asks for, read back by their names. */
module Unread {
  import opened Results
  import opened Literals
  import opened Trees
  import opened Search
  import opened Fields
  import opened Blocks
  import opened Metrics
  import opened Emitter
  import opened Document
  import opened Exporter
  import opened Snapshots

  // ---------------------------------------------------------------- the root

  lemma LowNames()
    ensures Name(RequestedBackend) == "requested_backend"
    ensures Name(MeanUs) == "mean_us" && Name(MinUs) == "min_us" && Name(P50Us) == "p50_us" && Name(P90Us) == "p90_us"
  {
  }

  lemma HighNames()
    ensures Name(P95Us) == "p95_us" && Name(P99Us) == "p99_us" && Name(MaxUs) == "max_us"
    ensures Name(StddevUs) == "stddev_us"
  {
  }

  lemma AliasLines(n: Numerics, b: BuildInfo, o: Options, s: Stats)
    ensures var lines, e := DocumentLines(n, b, o, s), s.endToEnd;
      && lines[4] == Line(RequestedBackend, TextTree(o.requestedBackend))
      && lines[12] == Line(MeanUs, Scalar(n.fixed(e.mean))) && lines[13] == Line(MinUs, Scalar(n.fixed(e.min)))
      && lines[14] == Line(P50Us, Scalar(n.fixed(e.p50))) && lines[15] == Line(P90Us, Scalar(n.fixed(e.p90)))
      && lines[16] == Line(P95Us, Scalar(n.fixed(e.p95))) && lines[17] == Line(P99Us, Scalar(n.fixed(e.p99)))
      && lines[18] == Line(MaxUs, Scalar(n.fixed(e.max))) && lines[19] == Line(StddevUs, Scalar(n.fixed(e.stddev)))
  {
    hide Block, TextTree, BoolTree, ValidationTree, BuildTree, EnvironmentTree, LatencyTree, SloTree;
  }

  /** A number of the root object. */
  lemma NumberRead(n: Numerics, b: BuildInfo, o: Options, s: Stats, k: nat, f: Field, x: real)
    requires ReadsBack(n) && k < MEMBERS && DocumentLines(n, b, o, s)[k] == Line(f, Scalar(n.fixed(x)))
    ensures NumberOf(n, MetricsJson(n, b, o, s), Name(f)) == Ok(Reread(n, x))
  {
    hide Name, FindValue, Stands, NumberOf, DocumentLines, MetricsJson, DocumentTree, ReadsBack, Reread, Lookup;
    var v := DocumentSearch(n, b, o, s, k);
    RealField(n, MetricsJson(n, b, o, s), Name(f), v, x);
  }

  /** The requested backend, and the flat copies of the end-to-end statistics. */
  lemma AliasesRead(n: Numerics, b: BuildInfo, o: Options, s: Stats)
    requires ReadsBack(n)
    ensures var doc, e := MetricsJson(n, b, o, s), s.endToEnd;
      && StringOf(doc, "requested_backend") == Ok(Masked(o.requestedBackend))
      && NumberOf(n, doc, "mean_us") == Ok(Reread(n, e.mean)) && NumberOf(n, doc, "min_us") == Ok(Reread(n, e.min))
      && NumberOf(n, doc, "p50_us") == Ok(Reread(n, e.p50)) && NumberOf(n, doc, "p90_us") == Ok(Reread(n, e.p90))
      && NumberOf(n, doc, "p95_us") == Ok(Reread(n, e.p95)) && NumberOf(n, doc, "p99_us") == Ok(Reread(n, e.p99))
      && NumberOf(n, doc, "max_us") == Ok(Reread(n, e.max))
      && NumberOf(n, doc, "stddev_us") == Ok(Reread(n, e.stddev))
  {
    hide Name, FindValue, Stands, StringOf, NumberOf, DocumentLines, MetricsJson, DocumentTree, ReadsBack, Reread,
         Lookup, TextTree, Masked;
    AliasLines(n, b, o, s);
    LowNames();
    HighNames();
    var e := s.endToEnd;
    var v := DocumentSearch(n, b, o, s, 4);
    TextField(MetricsJson(n, b, o, s), "requested_backend", v, o.requestedBackend);
    NumberRead(n, b, o, s, 12, MeanUs, e.mean);
    NumberRead(n, b, o, s, 13, MinUs, e.min);
    NumberRead(n, b, o, s, 14, P50Us, e.p50);
    NumberRead(n, b, o, s, 15, P90Us, e.p90);
    NumberRead(n, b, o, s, 16, P95Us, e.p95);
    NumberRead(n, b, o, s, 17, P99Us, e.p99);
    NumberRead(n, b, o, s, 18, MaxUs, e.max);
    NumberRead(n, b, o, s, 19, StddevUs, e.stddev);
  }

  /** Each flat copy says the same as its member in the end-to-end distribution. */
  lemma AliasesAgree(n: Numerics, b: BuildInfo, o: Options, s: Stats)
    requires ReadsBack(n)
    ensures var doc := MetricsJson(n, b, o, s);
      var latency := ObjectOf(doc, "latency_us");
      && latency.Ok?
      && var e := ObjectOf(latency.value, "end_to_end");
         && e.Ok?
         && NumberOf(n, doc, "mean_us") == NumberOf(n, e.value, "mean")
         && NumberOf(n, doc, "min_us") == NumberOf(n, e.value, "min")
         && NumberOf(n, doc, "p50_us") == NumberOf(n, e.value, "p50")
         && NumberOf(n, doc, "p90_us") == NumberOf(n, e.value, "p90")
         && NumberOf(n, doc, "p95_us") == NumberOf(n, e.value, "p95")
         && NumberOf(n, doc, "p99_us") == NumberOf(n, e.value, "p99")
         && NumberOf(n, doc, "max_us") == NumberOf(n, e.value, "max")
         && NumberOf(n, doc, "stddev_us") == NumberOf(n, e.value, "stddev")
  {
    hide Name, StringOf, NumberOf, ObjectOf, ParseDevice, ParseValidation, MetricsJson, Print, BuildTree,
         EnvironmentTree, SloTree, LatencyTree, DistributionTree, ReadsBack, Reread, Masked, DistributionLines;
    AliasesRead(n, b, o, s);
    ObjectsRead(n, b, o, s);
    LatencyRead(n, s);
    Snapshots.StatisticNames();
    var d := s.endToEnd;
    StatisticLines(n, d);
    StatisticRead(n, d, 1, Mean, d.mean);
    StatisticRead(n, d, 2, Min, d.min);
    StatisticRead(n, d, 3, P50, d.p50);
    StatisticRead(n, d, 4, P90, d.p90);
    StatisticRead(n, d, 5, P95, d.p95);
    StatisticRead(n, d, 6, P99, d.p99);
    StatisticRead(n, d, 7, Max, d.max);
    StatisticRead(n, d, 8, Stddev, d.stddev);
  }

  // ---------------------------------------------------------------- the environment

  lemma RuntimeNames()
    ensures Name(ComputeCapability) == "compute_capability" && Name(CudaRuntime) == "cuda_runtime"
    ensures Name(CudaDriver) == "cuda_driver" && Name(DeviceMemoryBytes) == "device_memory_bytes"
  {
  }

  lemma RuntimeLines(n: Numerics, r: Runtime)
    ensures var lines := EnvironmentLines(n, r);
      && |lines| == 6 && IsFirst(lines, 2) && IsFirst(lines, 3) && IsFirst(lines, 4) && IsFirst(lines, 5)
      && lines[2] == Line(ComputeCapability, OptionalText(r.computeCapability))
      && lines[3] == Line(CudaRuntime, OptionalText(r.cudaRuntime))
      && lines[4] == Line(CudaDriver, OptionalText(r.cudaDriver))
      && lines[5] == Line(DeviceMemoryBytes,
                          if r.deviceMemoryBytes == 0 then NULL else Scalar(n.decimal(r.deviceMemoryBytes)))
  {
    hide OptionalText;
  }

  lemma TextRead(doc: string, key: string, v: nat, s: string)
    requires FindValue(doc, key) == Some(v) && Stands(doc, v, OptionalText(s))
    ensures OptionalStringOf(doc, key) == Ok(if s == "" then None else Some(Masked(s)))
  {
    hide FindValue, Stands, OptionalStringOf, StringOf, TextTree, Masked;
    if s == "" {
      var n := Numerics(x => "", k => "", w => None);
      NullField(n, doc, key, v);
    } else {
      TextField(doc, key, v, s);
    }
  }

  /** The rest of the environment, with null for what is unknown. */
  lemma RuntimeRead(n: Numerics, r: Runtime)
    requires ReadsBack(n)
    ensures var env := Print(EnvironmentTree(n, r));
      && OptionalStringOf(env, "compute_capability") ==
         Ok(if r.computeCapability == "" then None else Some(Masked(r.computeCapability)))
      && OptionalStringOf(env, "cuda_runtime") == Ok(if r.cudaRuntime == "" then None else Some(Masked(r.cudaRuntime)))
      && OptionalStringOf(env, "cuda_driver") == Ok(if r.cudaDriver == "" then None else Some(Masked(r.cudaDriver)))
      && (r.deviceMemoryBytes == 0 ==> OptionalNumberOf(n, env, "device_memory_bytes") == Ok(None))
      && (r.deviceMemoryBytes > 0 ==>
            UnsignedOf(n, env, "device_memory_bytes") == Ok(RereadSize(n, r.deviceMemoryBytes)))
  {
    hide Name, Block, Print, ValidJson, FindValue, Stands, OptionalStringOf, OptionalNumberOf, UnsignedOf, OptionalText,
         ReadsBack, RereadSize, EnvironmentLines, Masked, IsFirst;
    EnvironmentValid(n, r);
    RuntimeLines(n, r);
    EnvironmentLeaf(n, r);
    RuntimeNames();
    var env, lines := Print(EnvironmentTree(n, r)), EnvironmentLines(n, r);
    var v := LeafSearch(lines, "  ", 2);
    TextRead(env, "compute_capability", v, r.computeCapability);
    v := LeafSearch(lines, "  ", 3);
    TextRead(env, "cuda_runtime", v, r.cudaRuntime);
    v := LeafSearch(lines, "  ", 4);
    TextRead(env, "cuda_driver", v, r.cudaDriver);
    v := LeafSearch(lines, "  ", 5);
    if r.deviceMemoryBytes == 0 {
      NullField(n, env, "device_memory_bytes", v);
    } else {
      SizeField(n, env, "device_memory_bytes", v, r.deviceMemoryBytes);
    }
  }

  // ---------------------------------------------------------------- the validation

  lemma SettingNames()
    ensures Name(Kind) == "kind" && Name(Tolerance) == "tolerance" && Name(ComparedElements) == "compared_elements"
  {
  }

  lemma ErrorNames()
    ensures Name(Mismatches) == "mismatches" && Name(MaxAbsError) == "max_abs_error"
  {
  }

  lemma CheckLines(n: Numerics, o: Options, v: OutputValidation)
    ensures var lines := ValidationLines(n, o, v);
      && |lines| == 6
      && IsFirst(lines, 0) && IsFirst(lines, 1) && IsFirst(lines, 2) && IsFirst(lines, 3) && IsFirst(lines, 4)
      && lines[0] == Line(Kind, TextTree("identity"))
      && lines[1] == Line(Tolerance, Scalar(n.fixed(o.validationTolerance)))
      && lines[2] == Line(ComparedElements, Scalar(n.decimal(v.comparedElements)))
      && lines[3] == Line(Mismatches, Scalar(n.decimal(v.mismatches)))
      && lines[4] == Line(MaxAbsError, Scalar(n.fixed(v.maxAbsError)))
  {
    hide TextTree, BoolTree;
  }

  lemma IdentityPlain()
    ensures Masked("identity") == "identity"
  {
    hide Masked;
    assert NoBareControl("identity");
    MaskedExact("identity");
  }

  /** What was validated, and how it came out. */
  lemma CheckRead(n: Numerics, o: Options, s: Stats)
    requires ReadsBack(n) && s.validation.Some?
    ensures var w, v := Print(ValidationTree(n, o, s)), s.validation.value;
      && StringOf(w, "kind") == Ok("identity")
      && NumberOf(n, w, "tolerance") == Ok(Reread(n, o.validationTolerance))
      && UnsignedOf(n, w, "compared_elements") == Ok(RereadSize(n, v.comparedElements))
      && UnsignedOf(n, w, "mismatches") == Ok(RereadSize(n, v.mismatches))
      && NumberOf(n, w, "max_abs_error") == Ok(Reread(n, v.maxAbsError))
  {
    hide Name, Block, Print, ValidJson, FindValue, Stands, StringOf, NumberOf, UnsignedOf, TextTree, ReadsBack, Reread,
         RereadSize, ValidationLines, Masked, IsFirst;
    var v := s.validation.value;
    ValidationValid(n, o, s);
    CheckLines(n, o, v);
    ValidationLeaf(n, o, v);
    SettingNames();
    ErrorNames();
    IdentityPlain();
    var w, lines := Print(ValidationTree(n, o, s)), ValidationLines(n, o, v);
    var p := LeafSearch(lines, "  ", 0);
    TextField(w, "kind", p, "identity");
    p := LeafSearch(lines, "  ", 1);
    RealField(n, w, "tolerance", p, o.validationTolerance);
    p := LeafSearch(lines, "  ", 2);
    SizeField(n, w, "compared_elements", p, v.comparedElements);
    p := LeafSearch(lines, "  ", 3);
    SizeField(n, w, "mismatches", p, v.mismatches);
    p := LeafSearch(lines, "  ", 4);
    RealField(n, w, "max_abs_error", p, v.maxAbsError);
  }

  lemma ValidationFound(n: Numerics, b: BuildInfo, o: Options, s: Stats)
    requires ReadsBack(n) && s.validation.Some?
    ensures ObjectOf(MetricsJson(n, b, o, s), "validation") == Ok(Print(ValidationTree(n, o, s)))
  {
    hide Name, FindValue, Stands, Print, ObjectOf, DocumentLines, MetricsJson, DocumentTree, ReadsBack, Lookup;
    ValidationLine(n, b, o, s);
    var v := DocumentSearch(n, b, o, s, 22);
    ObjectField(MetricsJson(n, b, o, s), "validation", v, ValidationTree(n, o, s));
  }

  lemma ValidationLine(n: Numerics, b: BuildInfo, o: Options, s: Stats)
    ensures DocumentLines(n, b, o, s)[22] == Line(Field.Validation, ValidationTree(n, o, s))
    ensures Name(Field.Validation) == "validation"
  {
    hide Block, TextTree, BoolTree, ValidationTree, BuildTree, EnvironmentTree, LatencyTree, SloTree;
  }

  /** The environment and the validation of a document, member by member. */
  lemma NestedRead(n: Numerics, b: BuildInfo, o: Options, s: Stats)
    requires ReadsBack(n)
    ensures var env, r := ObjectOf(MetricsJson(n, b, o, s), "environment"), s.runtime;
      && env.Ok?
      && OptionalStringOf(env.value, "compute_capability") ==
         Ok(if r.computeCapability == "" then None else Some(Masked(r.computeCapability)))
      && OptionalStringOf(env.value, "cuda_runtime") ==
         Ok(if r.cudaRuntime == "" then None else Some(Masked(r.cudaRuntime)))
      && OptionalStringOf(env.value, "cuda_driver") ==
         Ok(if r.cudaDriver == "" then None else Some(Masked(r.cudaDriver)))
      && (r.deviceMemoryBytes == 0 ==> OptionalNumberOf(n, env.value, "device_memory_bytes") == Ok(None))
      && (r.deviceMemoryBytes > 0 ==>
            UnsignedOf(n, env.value, "device_memory_bytes") == Ok(RereadSize(n, r.deviceMemoryBytes)))
    ensures s.validation.Some? ==>
      var w, v := ObjectOf(MetricsJson(n, b, o, s), "validation"), s.validation.value;
      && w.Ok?
      && StringOf(w.value, "kind") == Ok("identity")
      && NumberOf(n, w.value, "tolerance") == Ok(Reread(n, o.validationTolerance))
      && UnsignedOf(n, w.value, "compared_elements") == Ok(RereadSize(n, v.comparedElements))
      && UnsignedOf(n, w.value, "mismatches") == Ok(RereadSize(n, v.mismatches))
      && NumberOf(n, w.value, "max_abs_error") == Ok(Reread(n, v.maxAbsError))
  {
    hide Print, ObjectOf, ParseValidation, MetricsJson, BuildTree, EnvironmentTree, LatencyTree, SloTree,
         ValidationTree, ReadsBack, StringOf, NumberOf, UnsignedOf, OptionalStringOf, OptionalNumberOf, Reread,
         RereadSize, Masked;
    ObjectsRead(n, b, o, s);
    RuntimeRead(n, s.runtime);
    if s.validation.Some? {
      CheckRead(n, o, s);
      ValidationFound(n, b, o, s);
    }
  }
}
