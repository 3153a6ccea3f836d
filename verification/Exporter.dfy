/** The metrics exporter: what it reads from a metrics document, and the gauges it derives. */
module Exporter {
  import opened Results
  import opened Text
  import opened Literals
  import opened Containers
  import opened Trees
  import opened Search
  import opened Blocks
  import opened Metrics
  import opened Emitter
  import opened Document
  import Reader

  // ---------------------------------------------------------------- the readers

  function RequiredValue(doc: string, key: string): Result<nat> {
    match FindValue(doc, key)
    case Some(v) => Ok(v)
    case None => Fail(MissingField)
  }

  predicate IsNull(doc: string, position: nat) {
    At(doc, SkipSpace(doc, position), "null")
  }

  /** The text of the text at `position`, cut out of the document. */
  function ObjectText(doc: string, position: nat): Result<string> {
    var start := SkipSpace(doc, position);
    var end :- MatchingContainer(doc, start);
    Ok(doc[start..end + 1])
  }

  function NumberAt(n: Numerics, doc: string, position: nat): Result<real> {
    var start := SkipSpace(doc, position);
    var token := if start <= |doc| then doc[start..Reader.ScalarEnd(doc, start)] else "";
    match n.strtod(token)
    case Some(x) => Ok(x)
    case None => Fail(ExpectedNumber)
  }

  function BoolAt(doc: string, position: nat): Result<bool> {
    var start := SkipSpace(doc, position);
    if At(doc, start, "true") then Ok(true)
    else if At(doc, start, "false") then Ok(false)
    else Fail(ExpectedBoolean)
  }

  function StringOf(doc: string, key: string): Result<string> {
    var v :- RequiredValue(doc, key);
    StringAt(doc, v)
  }

  function OptionalStringOf(doc: string, key: string): Result<Option<string>> {
    var v := FindValue(doc, key);
    if v.None? || IsNull(doc, v.value) then Ok(None)
    else
      var s :- StringAt(doc, v.value);
      Ok(Some(s))
  }

  function ObjectOf(doc: string, key: string): Result<string> {
    var v :- RequiredValue(doc, key);
    ObjectText(doc, v)
  }

  function NumberOf(n: Numerics, doc: string, key: string): Result<real> {
    var v :- RequiredValue(doc, key);
    NumberAt(n, doc, v)
  }

  function OptionalNumberOf(n: Numerics, doc: string, key: string): Result<Option<real>> {
    var v := FindValue(doc, key);
    if v.None? || IsNull(doc, v.value) then Ok(None)
    else
      var x :- NumberAt(n, doc, v.value);
      Ok(Some(x))
  }

  function BoolOf(doc: string, key: string): Result<bool> {
    var v :- RequiredValue(doc, key);
    BoolAt(doc, v)
  }

  function UnsignedOf(n: Numerics, doc: string, key: string): Result<int> {
    var x :- NumberOf(n, doc, key);
    if IsUnsigned(x) then Ok(x.Floor) else Fail(NotUnsigned)
  }

  // ---------------------------------------------------------------- the snapshot

  datatype Readings = Readings(
    samples: int, mean: real, min: real, p50: real, p90: real, p95: real, p99: real, max: real, stddev: real)

  function ParseDistribution(n: Numerics, text: string): Result<Readings> {
    var samples :- UnsignedOf(n, text, "samples");
    var mean :- NumberOf(n, text, "mean");
    var min :- NumberOf(n, text, "min");
    var p50 :- NumberOf(n, text, "p50");
    var p90 :- NumberOf(n, text, "p90");
    var p95 :- NumberOf(n, text, "p95");
    var p99 :- NumberOf(n, text, "p99");
    var max :- NumberOf(n, text, "max");
    var stddev :- NumberOf(n, text, "stddev");
    Ok(Readings(samples, mean, min, p50, p90, p95, p99, max, stddev))
  }

  datatype Provenance = Provenance(
    version: string, revision: string, model: string, backend: string, backendVersion: string, device: string)

  datatype Counters = Counters(
    samples: int, inputSize: int, batchSize: int, fallbackUsed: bool, cudaGraph: bool,
    throughputIps: real, throughputSamples: real)

  datatype Objective = Objective(
    scope: string, targetUs: Option<real>, observedP99Us: Option<real>, passed: Option<bool>)

  datatype Snapshot = Snapshot(
    provenance: Provenance, counters: Counters, endToEnd: Readings, deviceCompute: Option<Readings>,
    validationPassed: Option<bool>, validationElements: Option<int>, slo: Objective)

  function ParseDevice(n: Numerics, latency: string): Result<Option<Readings>> {
    var v :- RequiredValue(latency, "device_compute");
    if IsNull(latency, v) then Ok(None)
    else
      var text :- ObjectText(latency, v);
      var d :- ParseDistribution(n, text);
      Ok(Some(d))
  }

  function ParseValidation(n: Numerics, doc: string): Result<(Option<bool>, Option<int>)> {
    var v :- RequiredValue(doc, "validation");
    if IsNull(doc, v) then Ok((None, None))
    else
      var text :- ObjectText(doc, v);
      var passed :- BoolOf(text, "passed");
      if FindValue(text, "checked_elements").None? then Ok((Some(passed), None))
      else
        var elements :- UnsignedOf(n, text, "checked_elements");
        Ok((Some(passed), Some(elements)))
  }

  function ParsePassed(slo: string): Result<Option<bool>> {
    var v := FindValue(slo, "passed");
    if v.None? || IsNull(slo, v.value) then Ok(None)
    else
      var passed :- BoolAt(slo, v.value);
      Ok(Some(passed))
  }

  function ReadProvenance(doc: string, build: string, environment: string): Result<Provenance> {
    var version :- StringOf(build, "version");
    var revision :- StringOf(build, "revision");
    var model :- StringOf(doc, "model");
    var backend :- StringOf(doc, "backend");
    var backendVersion :- OptionalStringOf(environment, "backend_version");
    var device :- StringOf(environment, "device");
    Ok(Provenance(version, revision, model, backend,
                  if backendVersion.Some? then backendVersion.value else "unknown", device))
  }

  function ReadCounters(n: Numerics, doc: string): Result<Counters> {
    var samples :- UnsignedOf(n, doc, "samples");
    var inputSize :- UnsignedOf(n, doc, "input_size");
    var batchSize :- UnsignedOf(n, doc, "batch_size");
    var fallbackUsed :- BoolOf(doc, "fallback_used");
    var cudaGraph :- BoolOf(doc, "cuda_graph");
    var ips :- NumberOf(n, doc, "throughput_ips");
    var sps :- NumberOf(n, doc, "throughput_samples_per_second");
    Ok(Counters(samples, inputSize, batchSize, fallbackUsed, cudaGraph, ips, sps))
  }

  function ReadSlo(n: Numerics, slo: string, passed: Option<bool>): Result<Objective> {
    var scope :- StringOf(slo, "scope");
    var target :- OptionalNumberOf(n, slo, "target_us");
    var observed :- OptionalNumberOf(n, slo, "observed_p99_us");
    Ok(Objective(scope, target, observed, passed))
  }

  function ParseSnapshot(n: Numerics, doc: string): Result<Snapshot> {
    var schema :- UnsignedOf(n, doc, "schema_version");
    if schema != 2 then Fail(UnsupportedSchema)
    else
      var build :- ObjectOf(doc, "build");
      var environment :- ObjectOf(doc, "environment");
      var latency :- ObjectOf(doc, "latency_us");
      var endToEndText :- ObjectOf(latency, "end_to_end");
      var deviceCompute :- ParseDevice(n, latency);
      var validation :- ParseValidation(n, doc);
      var sloText :- ObjectOf(doc, "slo");
      var passed :- ParsePassed(sloText);
      var provenance :- ReadProvenance(doc, build, environment);
      var counters :- ReadCounters(n, doc);
      var endToEnd :- ParseDistribution(n, endToEndText);
      var slo :- ReadSlo(n, sloText, passed);
      Ok(Snapshot(provenance, counters, endToEnd, deviceCompute, validation.0, validation.1, slo))
  }

  // ---------------------------------------------------------------- on emitted documents

  lemma TextField(doc: string, key: string, v: nat, s: string)
    requires FindValue(doc, key) == Some(v) && Stands(doc, v, TextTree(s))
    ensures StringOf(doc, key) == Ok(Masked(s)) && OptionalStringOf(doc, key) == Ok(Some(Masked(s)))
  {
    hide At, FindValue, Stands, TextTree, StringAt, SkipSpace;
    OnText(doc, v, s);
  }

  lemma NullField(n: Numerics, doc: string, key: string, v: nat)
    requires FindValue(doc, key) == Some(v) && Stands(doc, v, NULL)
    ensures StringOf(doc, key) == Fail(ExpectedString)
    ensures OptionalStringOf(doc, key) == Ok(None) && OptionalNumberOf(n, doc, key) == Ok(None)
    ensures IsNull(doc, v)
  {
    hide At, FindValue, Stands, StringAt, SkipSpace;
    OnNull(doc, v);
  }

  lemma NumberField(n: Numerics, doc: string, key: string, v: nat, w: string)
    requires FindValue(doc, key) == Some(v) && Stands(doc, v, Scalar(w)) && IsNumeral(w) && n.strtod(w).Some?
    ensures NumberOf(n, doc, key) == Ok(n.strtod(w).value)
    ensures OptionalNumberOf(n, doc, key) == Ok(Some(n.strtod(w).value))
  {
    hide At, FindValue, Stands, SkipSpace, Reader.ScalarEnd;
    OnNumber(doc, v, w);
  }

  lemma RealField(n: Numerics, doc: string, key: string, v: nat, x: real)
    requires ReadsBack(n) && FindValue(doc, key) == Some(v) && Stands(doc, v, Scalar(n.fixed(x)))
    ensures NumberOf(n, doc, key) == Ok(Reread(n, x)) && OptionalNumberOf(n, doc, key) == Ok(Some(Reread(n, x)))
  {
    hide At, FindValue, Stands, NumberOf, OptionalNumberOf, IsNumeral;
    NumberField(n, doc, key, v, n.fixed(x));
  }

  lemma SizeField(n: Numerics, doc: string, key: string, v: nat, k: Size)
    requires ReadsBack(n) && FindValue(doc, key) == Some(v) && Stands(doc, v, Scalar(n.decimal(k)))
    ensures UnsignedOf(n, doc, key) == Ok(RereadSize(n, k))
  {
    hide At, FindValue, Stands, NumberOf, OptionalNumberOf, IsNumeral;
    NumberField(n, doc, key, v, n.decimal(k));
  }

  lemma BoolField(doc: string, key: string, v: nat, b: bool)
    requires FindValue(doc, key) == Some(v) && Stands(doc, v, BoolTree(b))
    ensures BoolOf(doc, key) == Ok(b) && BoolAt(doc, v) == Ok(b) && !IsNull(doc, v)
  {
    hide At, FindValue, Stands, SkipSpace;
    OnBool(doc, v, b);
  }

  /** An object is cut out of the document exactly as it was printed. */
  lemma ObjectField(doc: string, key: string, v: nat, j: Json)
    requires FindValue(doc, key) == Some(v) && Stands(doc, v, j) && j.Object?
    ensures ObjectOf(doc, key) == Ok(Print(j)) && ObjectText(doc, v) == Ok(Print(j)) && !IsNull(doc, v)
  {
    hide At, FindValue, Print, ValidJson, SkipSpace, MatchingContainer, MatchingDelimiter;
    OnObject(doc, v, j);
    FirstChar(doc, v, j);
    Reader.MatchWhole(doc, v, j);
    MatchingContainerRefines(doc, v);
    AtSlice(doc, v, Print(j));
  }

  /**
   A printed document of another schema version is refused for that: any object with whitespace around it
   whose `schema_version` is an unsigned number other than 2.
   */
  lemma SchemaRefused(n: Numerics, j: Json, after: string, w: string, x: real)
    requires j.Object? && ValidJson(j) && AllSpace(after) && IsNumeral(w)
    requires Select(j.entries, "schema_version") == Some(Scalar(w)) && ClearBefore(j.entries, "schema_version")
    requires n.strtod(w) == Some(x) && IsUnsigned(x) && x != 2.0
    ensures ParseSnapshot(n, Print(j) + after) == Fail(UnsupportedSchema)
  {
    hide Print, ValidJson, FindValue, Stands, ClearBefore, Select, Lookup, NumberOf, IsNumeral, IsName, AllSpace;
    var doc := Print(j) + after;
    SchemaName();
    SearchBlock(doc, j, after, "schema_version");
    NumberField(n, doc, "schema_version", FindValue(doc, "schema_version").value, w);
    WholeNotTwo(x);
  }

  lemma SchemaName()
    ensures IsName("schema_version")
  {
  }

  lemma WholeNotTwo(x: real)
    requires IsUnsigned(x)
    ensures x.Floor == 2 <==> x == 2.0
  {
  }

  /** A document without a readable schema version is refused as well. */
  lemma SchemaMissing(n: Numerics, doc: string)
    requires FindValue(doc, "schema_version") == None
    ensures ParseSnapshot(n, doc) == Fail(MissingField)
  {
    hide FindValue;
  }
}
