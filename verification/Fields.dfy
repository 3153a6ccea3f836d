/** The field names of the metrics document, schema version 2. */
module Fields {
  import opened Search

  datatype Field =
    | SchemaVersion | Build | Version | Revision | Model | Backend | RequestedBackend
    | FallbackUsed | CudaGraph | Environment | BackendVersion | Device | ComputeCapability
    | CudaRuntime | CudaDriver | DeviceMemoryBytes | Samples | InputSize | BatchSize
    | LatencyUs | EndToEnd | DeviceCompute | Mean | Min | P50 | P90 | P95 | P99 | Max | Stddev
    | MeanUs | MinUs | P50Us | P90Us | P95Us | P99Us | MaxUs | StddevUs | ThroughputIps
    | ThroughputSamplesPerSecond | Validation | Kind | Tolerance | ComparedElements
    | CheckedElements | Mismatches | MaxAbsError | Passed | Slo | Scope | TargetUs
    | ObservedP99Us

  function Name(f: Field): string {
    match f
    case SchemaVersion => "schema_version"
    case Build => "build"
    case Version => "version"
    case Revision => "revision"
    case Model => "model"
    case Backend => "backend"
    case RequestedBackend => "requested_backend"
    case FallbackUsed => "fallback_used"
    case CudaGraph => "cuda_graph"
    case Environment => "environment"
    case BackendVersion => "backend_version"
    case Device => "device"
    case ComputeCapability => "compute_capability"
    case CudaRuntime => "cuda_runtime"
    case CudaDriver => "cuda_driver"
    case DeviceMemoryBytes => "device_memory_bytes"
    case Samples => "samples"
    case InputSize => "input_size"
    case BatchSize => "batch_size"
    case LatencyUs => "latency_us"
    case EndToEnd => "end_to_end"
    case DeviceCompute => "device_compute"
    case Mean => "mean"
    case Min => "min"
    case P50 => "p50"
    case P90 => "p90"
    case P95 => "p95"
    case P99 => "p99"
    case Max => "max"
    case Stddev => "stddev"
    case MeanUs => "mean_us"
    case MinUs => "min_us"
    case P50Us => "p50_us"
    case P90Us => "p90_us"
    case P95Us => "p95_us"
    case P99Us => "p99_us"
    case MaxUs => "max_us"
    case StddevUs => "stddev_us"
    case ThroughputIps => "throughput_ips"
    case ThroughputSamplesPerSecond => "throughput_samples_per_second"
    case Validation => "validation"
    case Kind => "kind"
    case Tolerance => "tolerance"
    case ComparedElements => "compared_elements"
    case CheckedElements => "checked_elements"
    case Mismatches => "mismatches"
    case MaxAbsError => "max_abs_error"
    case Passed => "passed"
    case Slo => "slo"
    case Scope => "scope"
    case TargetUs => "target_us"
    case ObservedP99Us => "observed_p99_us"
  }

  /** A name's length and first three letters, which tell the names apart. */
  function Code(w: string): int
    requires |w| >= 3
  {
    ((|w| * 256 + w[0] as int) * 256 + w[1] as int) * 256 + w[2] as int
  }

  /**
   The codes of the names: "mean" has 4 letters and begins with 'm' (109), 'e' (101) and 'a' (97), which
   makes ((4 * 256 + 109) * 256 + 101) * 256 + 97, that is 74278241. Telling 52 numbers apart is much
   cheaper for the verifier than telling 52 strings apart; `NamePlain` ties each to its name.
   */
  function NameCode(f: Field): int {
    match f
    case SchemaVersion => 242443112
    case Build => 90338665
    case Version => 125199730
    case Revision => 141714806
    case Model => 91058020
    case Backend => 123887971
    case RequestedBackend => 292709745
    case FallbackUsed => 224813420
    case CudaGraph => 174290276
    case Environment => 191196790
    case BackendVersion => 258105699
    case Device => 107242870
    case ComputeCapability => 308506477
    case CudaRuntime => 207844708
    case CudaDriver => 191067492
    case DeviceMemoryBytes => 325346678
    case Samples => 125002093
    case InputSize => 174681712
    case BatchSize => 174219636
    case LatencyUs => 174874996
    case EndToEnd => 174419556
    case DeviceCompute => 241460598
    case Mean => 74278241
    case Min => 57502062
    case P50 => 57685296
    case P90 => 57686320
    case P95 => 57686325
    case P99 => 57686329
    case Max => 57500024
    case Stddev => 108229732
    case MeanUs => 124609889
    case MinUs => 107833710
    case P50Us => 108016944
    case P90Us => 108017968
    case P95Us => 108017973
    case P99Us => 108017977
    case MaxUs => 107831672
    case StddevUs => 158561380
    case ThroughputIps => 242509938
    case ThroughputSamplesPerSecond => 494168178
    case Validation => 175530348
    case Kind => 74148206
    case Tolerance => 158625644
    case ComparedElements => 291729261
    case CheckedElements => 274950245
    case Mismatches => 174942579
    case MaxAbsError => 225272184
    case Passed => 108028275
    case Slo => 57896047
    case Scope => 91448175
    case TargetUs => 158622066
    case ObservedP99Us => 258957939
  }

  predicate Plain(w: string, code: int) {
    |w| >= 3 && IsName(w) && Code(w) == code
  }

  lemma HeaderNames()
    ensures Plain("schema_version", 242443112)
    ensures Plain("build", 90338665)
    ensures Plain("version", 125199730)
    ensures Plain("revision", 141714806)
    ensures Plain("model", 91058020)
    ensures Plain("backend", 123887971)
    ensures Plain("requested_backend", 292709745)
    ensures Plain("fallback_used", 224813420)
    ensures Plain("cuda_graph", 174290276)
  {
  }

  lemma EnvironmentNames()
    ensures Plain("environment", 191196790)
    ensures Plain("backend_version", 258105699)
    ensures Plain("device", 107242870)
    ensures Plain("compute_capability", 308506477)
    ensures Plain("cuda_runtime", 207844708)
    ensures Plain("cuda_driver", 191067492)
    ensures Plain("device_memory_bytes", 325346678)
  {
  }

  lemma SizeNames()
    ensures Plain("samples", 125002093)
    ensures Plain("input_size", 174681712)
    ensures Plain("batch_size", 174219636)
    ensures Plain("latency_us", 174874996)
    ensures Plain("end_to_end", 174419556)
    ensures Plain("device_compute", 241460598)
  {
  }

  lemma StatisticNames()
    ensures Plain("mean", 74278241)
    ensures Plain("min", 57502062)
    ensures Plain("p50", 57685296)
    ensures Plain("p90", 57686320)
    ensures Plain("p95", 57686325)
    ensures Plain("p99", 57686329)
    ensures Plain("max", 57500024)
    ensures Plain("stddev", 108229732)
  {
  }

  lemma FlatNames()
    ensures Plain("mean_us", 124609889)
    ensures Plain("min_us", 107833710)
    ensures Plain("p50_us", 108016944)
    ensures Plain("p90_us", 108017968)
    ensures Plain("p95_us", 108017973)
    ensures Plain("p99_us", 108017977)
    ensures Plain("max_us", 107831672)
    ensures Plain("stddev_us", 158561380)
  {
  }

  lemma ThroughputNames()
    ensures Plain("throughput_ips", 242509938)
    ensures Plain("throughput_samples_per_second", 494168178)
  {
  }

  lemma ValidationNames()
    ensures Plain("validation", 175530348)
    ensures Plain("kind", 74148206)
    ensures Plain("tolerance", 158625644)
    ensures Plain("compared_elements", 291729261)
    ensures Plain("checked_elements", 274950245)
    ensures Plain("mismatches", 174942579)
    ensures Plain("max_abs_error", 225272184)
  {
  }

  lemma VerdictNames()
    ensures Plain("passed", 108028275)
    ensures Plain("slo", 57896047)
    ensures Plain("scope", 91448175)
    ensures Plain("target_us", 158622066)
    ensures Plain("observed_p99_us", 258957939)
  {
  }

  lemma NamePlain(f: Field)
    ensures Plain(Name(f), NameCode(f))
  {
    hide Plain;
    HeaderNames();
    EnvironmentNames();
    SizeNames();
    StatisticNames();
    FlatNames();
    ThroughputNames();
    ValidationNames();
    VerdictNames();
  }

  lemma NameIsName(f: Field)
    ensures IsName(Name(f))
  {
    hide Name, NameCode, IsName;
    NamePlain(f);
  }

  lemma EarlyCodes(a: Field, b: Field)
    requires NameCode(a) == NameCode(b)
    requires
      a.SchemaVersion? || a.Build? || a.Version? || a.Revision? || a.Model? || a.Backend? ||
      a.RequestedBackend? || a.FallbackUsed? || a.CudaGraph? || a.Environment? || a.BackendVersion?
      || a.Device? || a.ComputeCapability? || a.CudaRuntime? || a.CudaDriver? ||
      a.DeviceMemoryBytes? || a.Samples? || a.InputSize? || a.BatchSize?
    ensures a == b
  {
  }

  lemma StatisticCodes(a: Field, b: Field)
    requires NameCode(a) == NameCode(b)
    requires
      a.LatencyUs? || a.EndToEnd? || a.DeviceCompute? || a.Mean? || a.Min? || a.P50? || a.P90?
    ensures a == b
  {
  }

  lemma TailCodes(a: Field, b: Field)
    requires NameCode(a) == NameCode(b)
    requires
      a.P95? || a.P99? || a.Max? || a.Stddev? || a.MeanUs? || a.MinUs?
    ensures a == b
  {
  }

  lemma FlatCodes(a: Field, b: Field)
    requires NameCode(a) == NameCode(b)
    requires
      a.P50Us? || a.P90Us? || a.P95Us? || a.P99Us? || a.MaxUs?
    ensures a == b
  {
  }

  lemma ThroughputCodes(a: Field, b: Field)
    requires NameCode(a) == NameCode(b)
    requires
      a.StddevUs? || a.ThroughputIps? || a.ThroughputSamplesPerSecond?
    ensures a == b
  {
  }

  lemma ValidationCodes(a: Field, b: Field)
    requires NameCode(a) == NameCode(b)
    requires
      a.Validation? || a.Kind? || a.Tolerance? || a.ComparedElements?
    ensures a == b
  {
  }

  lemma OutcomeCodes(a: Field, b: Field)
    requires NameCode(a) == NameCode(b)
    requires
      a.CheckedElements? || a.Mismatches? || a.MaxAbsError?
    ensures a == b
  {
  }

  lemma VerdictCodes(a: Field, b: Field)
    requires NameCode(a) == NameCode(b)
    requires
      a.Passed? || a.Slo? || a.Scope?
    ensures a == b
  {
  }

  lemma LastCodes(a: Field, b: Field)
    requires NameCode(a) == NameCode(b)
    requires
      a.TargetUs? || a.ObservedP99Us?
    ensures a == b
  {
  }

  lemma NamesDiffer(a: Field, b: Field)
    requires a != b
    ensures Name(a) != Name(b)
  {
    hide Name, NameCode, IsName;
    NamePlain(a);
    NamePlain(b);
    if NameCode(a) == NameCode(b) {
      CodesDiffer(a, b);
    }
  }

  lemma CodesDiffer(a: Field, b: Field)
    requires NameCode(a) == NameCode(b)
    ensures a == b
  {
    hide NameCode;
    match a
    case SchemaVersion | Build | Version | Revision | Model | Backend | RequestedBackend |
      FallbackUsed | CudaGraph | Environment | BackendVersion | Device | ComputeCapability |
      CudaRuntime | CudaDriver | DeviceMemoryBytes | Samples | InputSize | BatchSize => EarlyCodes(a, b);
    case LatencyUs | EndToEnd | DeviceCompute | Mean | Min | P50 | P90 => StatisticCodes(a, b);
    case P95 | P99 | Max | Stddev | MeanUs | MinUs => TailCodes(a, b);
    case P50Us | P90Us | P95Us | P99Us | MaxUs => FlatCodes(a, b);
    case StddevUs | ThroughputIps | ThroughputSamplesPerSecond => ThroughputCodes(a, b);
    case Validation | Kind | Tolerance | ComparedElements => ValidationCodes(a, b);
    case CheckedElements | Mismatches | MaxAbsError => OutcomeCodes(a, b);
    case Passed | Slo | Scope => VerdictCodes(a, b);
    case TargetUs | ObservedP99Us => LastCodes(a, b);
  }
}
