# Verified model of the benchmark's metrics pipeline, statistics and TensorRT engine

This Dafny project models the parts of the inference benchmark in which a mistake would go unnoticed:

- **The metrics document.** One hand-written emitter prints a schema version 2 JSON document
  (`src/benchmark.cpp`). Two hand-written readers read it back in unrelated ways: the regression
  comparator walks the text with a member lookup, a bracket stack and a decoding string parser
  (`tools/metrics_compare.cpp`); the Prometheus exporter searches the whole text for a quoted key and
  looks only at backslashes, a colon and a brace counter (`tools/metrics_exporter.cpp`).
- **The statistics and the decisions made from them.** Percentiles and moments of a run, the latency
  target, the exit code, the gauges and the regression budget.
- **The TensorRT engine.** Eleven owned resources, every foreign call free to fail
  (`src/engine_tensorrt.cpp`).

## How it is built

Every scanner with a loop in the source is a method with that loop, proved equal to a recursive function
over the same text; the theorems are about that function. The engine is a class with the source's fields.
The foreign runtime is the class `Driver.Api`: its outcomes are arbitrary, and its preconditions make a
use after release, a second release, a release of something that a live resource rests on, a second capture, an access out of bounds, a launch on released
buffers or a look at results that are still on their way an error of the caller, so that the methods of
`Engine.TensorRTEngine` verify only if no call sequence commits one. It counts the calls that failed, and keeps
the contents of buffers, the tensor addresses of a context, what a graph will launch and the times at which
events were passed (`Device.Memory`); a launch writes the result
of the input only if both addresses are bound, and otherwise anything.

| file | contents |
|---|---|
| `Results`, `Text`, `Metrics` | results and errors, positions in a text, the data of a run |
| `Literals` | string literals (RFC 8259, section 7): grammar, escaping, both readers |
| `Ambiguity` | which strings a reader's copy tells from all others |
| `Containers`, `Counter` | balanced brackets (RFC 8259, sections 4 and 5): grammar, stack; the brace counter and its own language |
| `Trees`, `Reader` | trees that keep their whitespace (RFC 8259, section 2); the comparator's reader on them |
| `Search` | the exporter's unscoped key search, and when it agrees with the scoped one |
| `Fields`, `Blocks`, `Emitter`, `Document` | field names, layout, the emitter, the document as a tree |
| `Comparator`, `Gate` | `parse_metrics` and the regression decision |
| `Exporter`, `Snapshots`, `Exposition` | `parse_snapshot`, its round trip, labels and gauges |
| `Unread` | the members of the document that neither reader asks for |
| `Statistics`, `Verdict` | sorting, ranks, percentiles, moments, domination; the exit code |
| `Decimals` | a number printer that meets the assumptions on the C++ library, so that they can be met |
| `Device`, `Driver` | the state the foreign runtime keeps, and its calls |
| `Volume`, `Resources`, `Wiring`, `Engine`, `Benchmark`, `Program` | shapes, the owned resources and how they are wired up, the engine, the benchmark loop, the program |

Text is a sequence of characters that stand for bytes. Sizes are integers with an explicit bound of 64
bits; a product that the source lets wrap around wraps here (`Engine.FloatBytes`). Numbers are exact
reals. Printing a number and `strtod` are a parameter `Numerics`; the theorems assume `ReadsBack`, that a
printed number is a token which reads back as some finite number, and they speak about the number that
comes back (`Reread`). Where it matters how much printing changes a number, the theorem asks it of the two
numbers that are compared (`Gate.Precise`). Tensor elements are numbers or NaN. What a device computes is a
fixed but unknown function of the execution context and the input (`Device.Kernel`).

## What the proofs brought to light

- Neither reader decodes a unicode escape. The emitter writes a control byte without a short escape as a
  unicode escape, so the comparator gets six characters back and the exporter a question mark
  (`Literals.EscapeRoundTrip`); strings without such bytes come back unchanged, and only those. The
  comparator's context guard tells the device of a run from every other device exactly when its name
  holds neither such a byte nor the spelling of one, null characters apart, which no device name can hold
  (`Gate.GuardTellsDevices`; `Gate.ContextBlind` is a
  pair of names it takes for one).
- The exporter asks for `checked_elements` where the emitter, and `docs/metrics.md`, have
  `compared_elements`: its gauge of validated elements is always zero (`Snapshots.CheckedAbsent`,
  `Verdict.GaugeValues`).
- Both readers refuse a document whose device is unknown, which the emitter writes as null
  (`Comparator.ParseEmitted`, `Snapshots.SnapshotEmitted`).
- The unscoped search agrees with the scoped one exactly on objects in which no value in front of the
  wanted member holds a member of the same name (`Search.UnscopedIsScoped`). The emitter's field order
  meets this for every member of the root object (`Snapshots.SearchesAgree`) and in every object that is
  cut out of it (`Snapshots.NestedSearchesAgree`).
- The brace counter accepts more than the bracket stack, for instance `{]}` (`Containers.CounterAcceptsMore`);
  what it accepts is a language of its own (`Counter.MatchingContainerExact`), and its answer is the right
  one exactly on containers (`Counter.CounterRight`).
- The size check of an inference compares products that wrap around, and so accepts element counts that
  differ by a multiple of a quarter of the address range (`Engine.SizeCheckWraps`).
- A load that fails at setting the tensor addresses leaves every handle in place that an inference asks
  for, and after a failed load this is so exactly then (`Engine.TensorRTEngine.Load`). The guard of
  `infer_into` then lets a call through on a context without addresses, and a success says nothing about
  the output; the output is the result of the input whenever the latest load succeeded
  (`Engine.TensorRTEngine.InferInto`). The benchmark program never gets there, for it stops after a failed load.
- A NaN in the output is no mismatch. A pass says that the output is close to the input exactly when the
  output holds no NaN (`Benchmark.PassExact`); an output of nothing else passes without an error
  (`Benchmark.NaNPasses`).

## Model

| member | source | states |
|---|---|---|
| Literals.EscapeJsonLoop | src/benchmark.cpp:65-87 | The escaping loop computes `EscapeJson`, the function the string theorems are about |
| Literals.EscapeRoundTrip | src/benchmark.cpp:65-87 | A quoted escaped string, anywhere in any text, is consumed exactly by both readers; it comes back as itself if and only if it holds no bare control byte |
| Literals.EscapedPrintable | src/benchmark.cpp:77-83 | Escaped text holds no control character |
| Literals.BareEscape | src/benchmark.cpp:78-80 | A bare control byte is written as the unicode escape whose two hexadecimal digits are its number |
| Literals.ShownExact | tools/metrics_compare.cpp:152-168 | The comparator's copy of a string is the original if and only if no bare control byte occurs in it |
| Literals.MaskedExact | tools/metrics_exporter.cpp:131-137 | The same for the exporter's copy, which has a question mark in each such place |
| Ambiguity.ShownDetermines | tools/metrics_compare.cpp:152-168 | The comparator's copy tells a string from every other string if and only if it holds neither a bare control byte nor the spelling of one; the same among C strings, the null byte left out |
| Ambiguity.MaskedDetermines | tools/metrics_exporter.cpp:131-137 | The exporter's copy does if and only if the string holds neither a bare control byte nor a question mark |
| Literals.ParseStringLoop | tools/metrics_compare.cpp:124-173 | The parser's loop, with its jumps and all five errors, computes `ParseString` |
| Literals.ParseString | tools/metrics_compare.cpp:124-173 | On any text the position returned lies within it, just behind a closing quote |
| Literals.ParseStringExact | tools/metrics_compare.cpp:124-173 | The parser accepts exactly the literals of the grammar and returns their decoding and their end |
| Literals.StringEndLoop | tools/metrics_exporter.cpp:90-107 | The flag-based scanner computes `StringEnd` |
| Literals.StringAtLoop | tools/metrics_exporter.cpp:109-142 | The two-pass string reader computes `StringAt` |
| Literals.StringEndRefines | tools/metrics_exporter.cpp:90-142 | Wherever the comparator reads a literal, the exporter finds the same closing quote and decodes the same units |
| Containers.MatchingDelimiterLoop | tools/metrics_compare.cpp:175-203 | The loop over the stack of owed delimiters computes `MatchingDelimiter` |
| Containers.MatchingDelimiterExact | tools/metrics_compare.cpp:175-203 | Sound and complete: it returns `c` if and only if the text from the position to `c` is a balanced container with opaque literals |
| Containers.ContainerUnique | tools/metrics_compare.cpp:175-203 | Such a `c` is unique, and an error means that there is none |
| Containers.MatchingContainerLoop | tools/metrics_exporter.cpp:159-177 | The brace counter's loop computes `MatchingContainer` |
| Containers.BraceRefines | tools/metrics_exporter.cpp:164-175 | From any point of a scan on, counting the braces owed gives the answer of the stack whose bottom is a brace |
| Containers.MatchingContainerRefines | tools/metrics_exporter.cpp:159-177 | On a brace, wherever the comparator finds the closing delimiter the brace counter finds the same one |
| Counter.MatchingContainerExact | tools/metrics_exporter.cpp:159-177 | Sound and complete for its own language: it returns `c` if and only if the text to `c` is a pair of braces around text in which braces alone nest and a string ends at the first quote without a backslash of its own |
| Counter.CounterRight | tools/metrics_exporter.cpp:159-177 | Where the counter answers, the stack answers if and only if this is a balanced container, and then with the same position |
| Text.SkipSpaceLoop | tools/metrics_compare.cpp:113-122 | The whitespace loop computes `SkipSpace` |
| Reader.SkipValueLoop | tools/metrics_compare.cpp:205-230 | The value scanner computes `SkipValue` |
| Reader.SkipValue | tools/metrics_compare.cpp:205-230 | On any text the end returned is later than the start and within the text |
| Reader.SkipValueExact | tools/metrics_compare.cpp:205-230 | It ends exactly one past every printed value, for any whitespace inside |
| Reader.ObjectAt | tools/metrics_compare.cpp:45-51 | On any text a span returned is closed by a brace within the text |
| Reader.FindLoop | tools/metrics_compare.cpp:88-111 | The member search computes `Find`, errors included, and terminates on any text |
| Reader.Find | tools/metrics_compare.cpp:88-111 | On any text an offset found lies behind the opening brace and no later than the closing one |
| Reader.FindExact | tools/metrics_compare.cpp:88-111 | On every printed object, the search returns the first member whose decoded key is the wanted one, or none if there is none |
| Reader.DescendExact | tools/metrics_compare.cpp:37-51 | Walking a path of keys through the text is walking it through the tree, at every depth, with the same failures |
| Reader.RootExact | tools/metrics_compare.cpp:28-35 | The root object of a document with whitespace around it is the printed object |
| Reader.RootDecides | tools/metrics_compare.cpp:28-35 | A document that starts with a printed object is taken as it if only whitespace follows, and refused for its trailing content otherwise |
| Trees.LookupStands | tools/metrics_compare.cpp:88-111 | The offset of a member is where its value stands, printed whole and ended |
| Search.FindValue | tools/metrics_exporter.cpp:48-75 | On any text an offset found lies within it |
| Search.FindValueLoop | tools/metrics_exporter.cpp:48-75 | The search loop, with its backslash count, computes `FindValue` |
| Search.FindValueExact | tools/metrics_exporter.cpp:48-75 | On every printed document the unscoped search returns the first member in reading order, at any depth, whose key is spelled like the wanted one; text inside strings never misleads it |
| Search.UnscopedIsScoped | tools/metrics_exporter.cpp:48-75 | It agrees with the scoped lookup of the comparator if and only if no value in front of the wanted member mentions that key |
| Emitter.WriteDistribution | src/benchmark.cpp:89-102 | What is appended is the printed tree of the distribution |
| Emitter.FormatMetricsJson | src/benchmark.cpp:202-322 | The emitted text is the printed tree of the document and a line break; what its members say is stated by `Comparator.MetricsPlain`, `Snapshots.SnapshotPlain` and the module `Unread` |
| Unread.AliasesRead | src/benchmark.cpp:222-283 | The requested backend and the eight flat statistics, read back by their literal names, are those of the run |
| Unread.AliasesAgree | src/benchmark.cpp:276-283 | Each flat statistic says the same as its member in the end-to-end distribution |
| Unread.NestedRead | src/benchmark.cpp:225-297 | The members of the environment and the validation that neither reader asks for, read back by their literal names, are those of the run, null standing for what is unknown |
| Document.DocumentValid | src/benchmark.cpp:202-322 | For every run the document is a valid JSON tree, whatever its strings hold |
| Document.DocumentDistinct | src/benchmark.cpp:219-322 | No two members of the document share a name |
| Comparator.ParseEmitted | tools/metrics_compare.cpp:256-279 | End-to-end round trip: for every run, scope and metric, reading the emitted document gives exactly the printed values; an unrecorded scope and an unknown device are refused, nothing else |
| Comparator.MetricsPlain | tools/metrics_compare.cpp:256-279 | The same with literal arguments: each metric of each scope by its own name, and each context field |
| Comparator.TrailingRefused | tools/metrics_compare.cpp:31-33 | A printed document with anything but whitespace behind it is refused |
| Gate.CompareEmitted | tools/metrics_compare.cpp:306-315 | The exit code for any two emitted documents: unusable, another context, within budget, or a regression |
| Gate.CompareBudget | tools/metrics_compare.cpp:468-470 | In plain numbers: exit code 0 if and only if a hundred times the candidate less the tolerance is at most a hundred plus the percentage times the baseline, and 1 otherwise |
| Gate.RegressedRunFails | tools/metrics_compare.cpp:468-470 | The converse from raw samples: if in some pairing every candidate sample exceeds the budget of its partner and the cost of printing, the exit code is 1 in every metric |
| Gate.DominatedRunPasses | tools/metrics_compare.cpp:468-470 | From raw samples to the gate, with any settings: a candidate whose samples pair with the baseline's within `a*x + b` passes in every metric if the offset and the cost of printing fit into the absolute tolerance and what the relative budget beyond `a` is worth at the smallest baseline sample |
| Gate.DefaultsPass | tools/metrics_compare.cpp:400-401 | With the default settings (5 percent, no absolute tolerance) a run no sample of which exceeds its partner passes, when the samples are 41 times the cost of printing |
| Gate.GuardTellsDevices | tools/metrics_compare.cpp:306-315 | Among device names, which are C strings, the context guard tells the device of a run from every other if and only if its name holds neither a bare control byte nor the spelling of one |
| Gate.GuardExact | tools/metrics_compare.cpp:306-315 | Between runs whose names hold no bare control byte, comparable means the same backend, device and CUDA graph mode, and sizes that read back alike |
| Snapshots.SearchesAgree | tools/metrics_exporter.cpp:48-75 | On every emitted document the unscoped and the scoped search return the same offset for every member of the root object |
| Snapshots.NestedSearchesAgree | tools/metrics_exporter.cpp:315-365 | They also agree in every object cut out of the document: in build, environment, both distributions, validation and slo on every name, found or not, and in latency_us on the names of the distributions |
| Snapshots.ReadingsRead | tools/metrics_exporter.cpp:272-284 | A printed distribution is read back number by number |
| Snapshots.CheckedAbsent | tools/metrics_exporter.cpp:331 | The element count the exporter asks for is in no emitted validation object |
| Snapshots.SnapshotEmitted | tools/metrics_exporter.cpp:310-366 | The exporter's round trip: every value asked for is recovered as printed, for all strings; only an unknown device is refused |
| Snapshots.SnapshotPlain | tools/metrics_exporter.cpp:310-366 | The same field by field, with the target scope, verdict and observed value in terms of the run |
| Exporter.SchemaRefused | tools/metrics_exporter.cpp:311-313 | A printed document of another schema version is refused for that |
| Exporter.ObjectField | tools/metrics_exporter.cpp:179-189 | An object is cut out of a document exactly as it was printed |
| Exposition.EscapeLabelLoop | tools/metrics_exporter.cpp:368-380 | The label loop computes `EscapeLabel` |
| Exposition.LabelRoundTrip | tools/metrics_exporter.cpp:368-380 | An escaped label value is read back whole, up to its closing quote and no further |
| Exposition.LabelOneLine | tools/metrics_exporter.cpp:368-380 | An escaped value holds no line break, and every quote in it has an odd number of backslashes before it |
| Exposition.BuildInfoRead | tools/metrics_exporter.cpp:414-419 | Reading the build-info line as a sample line gives the six labels in order, each name with its own value |
| Exposition.BuildInfoInjective | tools/metrics_exporter.cpp:414-419 | Different provenance renders to different build-info lines |
| Verdict.ExitCode | src/main.cpp:197-220 | 5 if and only if validation failed; 3 or 4 if and only if it did not and the verdict written into the document is false; 4 only without, 3 only with an observed p99, which is then above the target |
| Verdict.DocumentVerdict | src/main.cpp:197-220 | For every run, the exit code and the verdicts read back from the emitted document say the same |
| Verdict.OneVerdict | tools/metrics_exporter.cpp:466-493 | For every document the exporter accepts, so do its gauges: exit 3 or 4 is configured and not passed, exit 5 is validation enabled and not passed |
| Verdict.GaugeValues | tools/metrics_exporter.cpp:466-493 | What the remaining gauges show of a run after the trip through the document |
| Verdict.VerdictTail | src/main.cpp:204-218 | What exit 0 and exit 3 say about the number of unsorted samples above the target |
| Statistics.SortSorted | src/benchmark.cpp:45 | Sorting gives an ordered permutation |
| Statistics.SortedUnique | src/benchmark.cpp:45 | There is only one, so that the sorting algorithm does not matter |
| Statistics.RankExact | src/benchmark.cpp:28-37 | The sorted sample of rank `k` is within a threshold if and only if at most `n - 1 - k` samples exceed it |
| Statistics.PercentileBounds | src/benchmark.cpp:28-37 | A percentile lies between the samples of its two neighbouring ranks |
| Statistics.PercentileExact | src/benchmark.cpp:32-36 | At position `k + w` a percentile is `s[k] * (1 - w) + s[k + 1] * w`, in plain numbers |
| Statistics.PercentileEnds | src/benchmark.cpp:29-36 | Of no sample it is zero, of one it is that sample, and outside the unit interval it is the first or the last |
| Statistics.PercentileMonotone | src/benchmark.cpp:28-37 | A higher percentile is not smaller |
| Statistics.TailMeaning | src/benchmark.cpp:28-37 | What a percentile within or beyond a threshold says about the unsorted samples, both ways, and exactly at whole ranks |
| Statistics.Summarize | src/benchmark.cpp:39-63 | The accumulation computes the `Summary` of the samples |
| Statistics.SummaryPermutation | src/benchmark.cpp:39-63 | The summary depends only on the multiset of samples |
| Statistics.SummaryPlain | src/benchmark.cpp:45-54 | Count, minimum, maximum and mean over any ordering of the samples |
| Statistics.SummaryPercentiles | src/benchmark.cpp:50-53 | What is shown as p50, p90, p95 and p99, over any ordering of the samples, as mixtures of neighbouring ranks |
| Statistics.SummaryOrdered | src/benchmark.cpp:39-63 | Minimum, p50, p90, p95, p99 and maximum are in order, and the mean lies between the ends |
| Statistics.SummarySpread | src/benchmark.cpp:56-61 | The variance identity over the unsorted samples, and the bound of the variance by the distances of the mean to both ends |
| Statistics.SortDominated | src/benchmark.cpp:45 | Sorting preserves a pointwise affine bound between two runs, whatever the pairing was |
| Statistics.PercentileDominated | src/benchmark.cpp:28-37 | Interpolated percentiles preserve it |
| Statistics.SummaryDominated | src/benchmark.cpp:39-63 | So do mean, p50, p90, p95, p99 and maximum of unsorted runs |
| Statistics.SummaryExceeds | src/benchmark.cpp:39-63 | A run all of whose samples exceed the image of their partners exceeds it, by a margin, in the same statistics |
| Volume.CheckedVolume | src/engine_tensorrt.cpp:23-39 | A value if and only if there is a dimension, all are positive and the true product fits; then it is that product, without any intermediate wrap |
| Resources.GuardCoversEvents | src/engine_tensorrt.cpp:321-324 | With resources held in acquisition order, which `TensorRTEngine.Valid` keeps in every reachable state, the guard of an inference implies that both timing events exist |
| Engine.FloatBytesExact | src/engine_tensorrt.cpp:172-173 | The byte size is the true one if and only if the volume is below a quarter of the address range |
| Engine.SizeCheckExact | src/engine_tensorrt.cpp:325 | The byte counts agree if and only if the element counts do modulo a quarter of the address range |
| Engine.SizeCheckWraps | src/engine_tensorrt.cpp:321-335 | An engine that accepts a call with `n` elements accepts one with `m` if and only if they agree modulo a quarter of the address range |
| Engine.TensorRTEngine.DestroyResources | src/engine_tensorrt.cpp:77-127 | Everything held is released once: every other resource before the context, the context before the engine, the engine before the runtime, the graph before the stream; nothing is live afterwards |
| Engine.TensorRTEngine.ScanTensors | src/engine_tensorrt.cpp:134-158 | Succeeds if and only if no second tensor of a mode follows a named one, and then has the names |
| Engine.TensorRTEngine.ReadShapes | src/engine_tensorrt.cpp:156-173 | Succeeds if and only if the model is one input and one output of fixed float shape, and then has its byte sizes |
| Engine.TensorRTEngine.BindAddresses | src/engine_tensorrt.cpp:190-194 | True if and only if both tensor addresses are bound afterwards |
| Engine.RunnableExactly | src/engine_tensorrt.cpp:134-171 | What a model has to be, its tensors being named: exactly one input and one output, both of floats and of a fixed shape whose volume fits |
| Engine.TensorRTEngine.InitializeExecution | src/engine_tensorrt.cpp:129-220 | Acquires in order and releases nothing; true if and only if both addresses are bound; false for a runnable model only when a foreign call failed; the handles of an inference are all there if and only if it came as far as the binding |
| Engine.TensorRTEngine.LoadSerializedEngine | src/engine_tensorrt.cpp:222-248 | After success or failure the fields account for all that is live, in acquisition order |
| Engine.TensorRTEngine.LoadOnnx | src/engine_tensorrt.cpp:250-302 | The same, the scoped builder objects having been released on every path |
| Engine.TensorRTEngine.Load | src/engine_tensorrt.cpp:304-311 | Releases whatever was loaded before, safely ordered, and keeps the invariant whatever fails; bound if and only if true; true only, and without a failed foreign call always, for a runnable model from an ONNX path or a readable file; after a failure the guard of an inference passes the handles if and only if it failed at the binding |
| Engine.TensorRTEngine.RunOnDevice | src/engine_tensorrt.cpp:337-366 | Copy in, launch of graph or context between the events, copy out and wait: with both addresses bound at the start, the pinned output holds the result of the data at the end; the time is that of the launch alone; no buffer is exceeded and none is read early |
| Engine.AcceptsExactly | src/engine_tensorrt.cpp:321-335 | In terms of the loaded model: a call is accepted if and only if it has the elements of the input shape and room for those of the output shape, an exact fit included |
| Engine.TensorRTEngine.InferInto | src/engine_tensorrt.cpp:313-371 | True if and only if the call is accepted and no foreign call failed; after a successful load it then writes the result of the input, with or without a graph, all of it and nothing else; it shows the time of its own launch in microseconds; failure shows no time and leaves the buffer alone |
| Engine.TensorRTEngine.CaptureGraph | src/engine_tensorrt.cpp:397-421 | A capture that was started is ended; an unusable graph is destroyed; a usable one holds a launch of the context as it is bound |
| Engine.TensorRTEngine.EnableCudaGraph | src/engine_tensorrt.cpp:389-431 | True if and only if an executable graph is held afterwards, which with a context and a stream fails only when a foreign call does; no captured graph survives the call |
| Engine.Live | src/engine_tensorrt.cpp:63-67 | Over every sequence of calls and failures, ended by destruction: all that was ever acquired was released exactly once, and no capture is open |
| Benchmark.InputElements | src/benchmark.cpp:111-122 | The three refusals, each if and only if its condition holds for the true product |
| Benchmark.Validate | src/benchmark.cpp:169-184 | Passes if and only if lengths agree and no element is off by more than the tolerance, a NaN being off by nothing; the mismatches and the largest error are counted exactly |
| Benchmark.MissesCount | src/benchmark.cpp:175-181 | The mismatches counted are the size of the set of elements that are off |
| Benchmark.PassExact | src/benchmark.cpp:175-182 | An output that is close to the input passes; one that passes is close to it if and only if it holds no NaN |
| Benchmark.NaNPasses | src/benchmark.cpp:175-182 | An output of NaN alone passes without a mismatch or an error |
| Benchmark.Measure | src/benchmark.cpp:150-162 | One end-to-end and one device sample per iteration, the device samples being the times of these very inferences in order |
| Benchmark.RunBenchmark | src/benchmark.cpp:110-200 | The same for a whole run with its refusals, earlier times being kept; with all handles and a known input size it fails only when a foreign call does, and zero capacity is never reported; statistics and throughput are those of its samples, and its validation judges the last output, which is the result of the input pattern if the engine was loaded |
| Benchmark.ThroughputExact | src/benchmark.cpp:186-194 | Inferences per second times the seconds spent is the number of inferences |
| Program.Report | src/main.cpp:178-225 | A run, its document and its exit code belong together: both are made from the summaries of the samples |
| Program.SamplesDecide | src/main.cpp:178-220 | From raw samples to the exit code, the document and the gauges: all three say the same about the tail of the samples, and exit code 4 does not occur |
| Program.RunsCompare | tools/metrics_compare.cpp:460-493 | From the raw samples of two runs to the gate: within the budget in some pairing means exit code 0 |

## Left out

- IEEE-754 rounding and infinities, and NaN in times and options: numbers are exact reals. The text of a printed number and what `strtod` makes of it are the parameter `Numerics`.
- The square root of `summarize` is a parameter; the theorems speak about the variance it is applied to.
- `std::sort` is the function `Statistics.Sort`, not an algorithm in place; `Statistics.SortedUnique` shows that any sort gives the same sequence.
- `std::string_view::find` is the function `Search.IndexOf`.
- Error messages: each `throw` is a value of an enumeration, without the name of the field. The console output is left out.
- The readers' cast of a size that prints as 2^64, which their bound lets through, is undefined in C++; the model returns 2^64.
- Clocks, foreign return codes and runtime metadata are arbitrary values. The end-to-end times of a run are arbitrary too.
- `format_metrics_json` is one method per nested object here, and no output stream is modelled; the text is a string that grows.
- The members of `render_snapshot` other than the build-info line and the validation and target gauges, and `write_distribution` of the exporter: fixed text around values.
- The comparator's own result document and its option parsing; the exits 1, 2 and 6 of the benchmark program.
- The mock engine, the engine factory, model building, HTTP, sockets, signals and file reading. An engine without device timing only occurs as `deviceCompute` being absent from `Stats`.
- The exceptions an allocation in the C++ library may throw in the middle of a method.
- Benchmark.RunBenchmark: models a run on the TensorRT engine only, because every other engine is a thin wrapper.
- Engine.TensorRTEngine.InferInto: the device is one function of context and input, so that a device that computes differently from call to call is not covered; copies and launches on the one stream take effect when they are queued, and only the wait for it is modelled, because they run in order.
- The names of tensors when their addresses are set: a context has one input and one output port.
