/**
 The data a benchmark run hands on, and the number routines of the C++ library it is printed and
 read back with.
 */
module Metrics {
  import opened Results
  import opened Trees

  /** Values of an unsigned 64-bit integer. */
  type Size = n: int | 0 <= n < 0x1_0000_0000_0000_0000

  /** A tensor element: a number, or not a number. */
  datatype Element = Number(value: real) | NaN

  datatype Scope = EndToEnd | DeviceCompute

  datatype Distribution = Distribution(
    samples: Size, mean: real, min: real, p50: real, p90: real, p95: real, p99: real, max: real, stddev: real)

  datatype OutputValidation = OutputValidation(
    passed: bool, comparedElements: Size, mismatches: Size, maxAbsError: real)

  /** Empty strings and zero bytes mean that the value is unknown. */
  datatype Runtime = Runtime(
    backendVersion: string, deviceName: string, computeCapability: string,
    cudaRuntime: string, cudaDriver: string, deviceMemoryBytes: Size)

  datatype Stats = Stats(
    endToEnd: Distribution, deviceCompute: Option<Distribution>, validation: Option<OutputValidation>,
    cudaGraph: bool, runtime: Runtime, throughputIps: real, throughputSamples: real, backend: string)

  datatype Options = Options(
    modelPath: string, inputSize: Size, batchSize: Size, targetLatencyUs: real, targetScope: Scope,
    fallbackUsed: bool, validationTolerance: real, requestedBackend: string)

  datatype BuildInfo = BuildInfo(version: string, revision: string)

  /** How the library prints a fixed-point number and an integer, and what `strtod` makes of a token. */
  datatype Numerics = Numerics(fixed: real -> string, decimal: Size -> string, strtod: string -> Option<real>)

  /** A printed number starts with a digit or a minus sign. */
  predicate IsNumeral(w: string) {
    IsToken(w) && ('0' <= w[0] <= '9' || w[0] == '-')
  }

  /** What `exact_unsigned` and `unsigned_value` accept, the bound being 2^64 as a double. */
  predicate IsUnsigned(x: real) {
    0.0 <= x <= 18446744073709551616.0 && x.Floor as real == x
  }

  /** Every finite number prints as a numeral that reads back, every integer as an unsigned one. */
  ghost predicate ReadsBack(n: Numerics) {
    && (forall x :: IsNumeral(n.fixed(x)) && n.strtod(n.fixed(x)).Some?)
    && (forall k :: IsNumeral(n.decimal(k)) && n.strtod(n.decimal(k)).Some?
                    && IsUnsigned(n.strtod(n.decimal(k)).value))
    && n.strtod("2") == Some(2.0)
  }
}
