/**
 What the foreign runtime keeps for its caller: the contents of buffers, the buffers a context reads
 and writes, and what a graph will launch. Work on the one stream takes effect in the order in which
 it is queued, and may be looked at when the stream was waited for.
 */
module Device {
  import opened Results
  import opened Metrics

  datatype Kind =
    | InferRuntime | CudaEngine | ExecutionContext | Stream | StartEvent | StopEvent
    | InputDevice | OutputDevice | InputHost | OutputHost | GraphExecution | CapturedGraph
    | Builder | Network | Parser | BuilderConfig | SerializedNetwork

  datatype Handle = Handle(kind: Kind, id: nat)

  /** What a device computes: an execution context and an input determine every output element. */
  type Kernel = (Handle, seq<Element>, nat) -> Element

  function Computed(kernel: Kernel, context: Handle, input: seq<Element>, n: nat): (output: seq<Element>)
    ensures |output| == n
  {
    seq(n, i requires 0 <= i < n => kernel(context, input, i))
  }

  datatype Port = InputPort | OutputPort

  /** The addresses of the two tensors of a context, as far as they were set. */
  datatype Binding = Binding(input: Option<Handle>, output: Option<Handle>)

  const UNBOUND := Binding(None, None)

  function Bound(b: Binding, port: Port, buffer: Handle): Binding {
    match port
    case InputPort => b.(input := Some(buffer))
    case OutputPort => b.(output := Some(buffer))
  }

  /** One execution of a context, on the buffers it was bound to when the launch was made. */
  datatype Launch = Launch(context: Handle, binding: Binding)

  /**
   The clock is that of the stream, in milliseconds; an event marks the time at which the stream comes to
   it, and `lastLaunch` is how long the latest launch took.
   */
  datatype Memory = Memory(
    contents: map<Handle, seq<Element>>, bindings: map<Handle, Binding>, graphs: map<Handle, Launch>,
    traced: Option<Launch>, idle: bool, marks: map<Handle, real>, clock: real, lastLaunch: real)

  /** The events mark the same times, and there was no launch. */
  predicate SameMarks(m: Memory, k: Memory) {
    k.marks == m.marks && k.lastLaunch == m.lastLaunch
  }

  /** The same buffers of the same sizes, the same bindings and graphs. */
  ghost predicate SameShape(m: Memory, k: Memory) {
    && k.bindings == m.bindings && k.graphs == m.graphs
    && k.contents.Keys == m.contents.Keys
    && forall h :: h in m.contents ==> |k.contents[h]| == |m.contents[h]|
  }

  /** Nothing but the contents of one buffer may have changed. */
  ghost predicate SameBut(m: Memory, k: Memory, buffer: Handle) {
    SameShape(m, k) && forall h :: h in m.contents && h != buffer ==> k.contents[h] == m.contents[h]
  }

  /** A new buffer of `n` elements, with anything in it. */
  ghost predicate Allocated(m: Memory, k: Memory, buffer: Handle, n: nat) {
    && k.bindings == m.bindings && k.graphs == m.graphs
    && k.contents.Keys == m.contents.Keys + {buffer}
    && |k.contents[buffer]| == n
    && forall h :: h in m.contents && h != buffer ==> k.contents[h] == m.contents[h]
  }

  /**
   The effect of a launch. With both ports bound, it changes the output buffer alone, and on success the
   result of the input is in it. With a port unbound nothing is known of any buffer afterwards.
   */
  ghost predicate Launched(m: Memory, k: Memory, kernel: Kernel, launch: Launch, ok: bool) {
    var b := launch.binding;
    && SameShape(m, k) && k.marks == m.marks && k.clock == m.clock + k.lastLaunch
    && (b.input.Some? && b.output.Some? && b.input.value in m.contents && b.output.value in m.contents ==>
          && SameBut(m, k, b.output.value)
          && (ok ==>
                k.contents[b.output.value] ==
                Computed(kernel, launch.context, m.contents[b.input.value], |m.contents[b.output.value]|)))
  }

  /** The buffers a launch touches. */
  function Touched(b: Binding): set<Handle> {
    (if b.input.Some? then {b.input.value} else {}) + (if b.output.Some? then {b.output.value} else {})
  }

  /** `k` is `m` with the contents of one buffer replaced. */
  function Stored(m: Memory, buffer: Handle, data: seq<Element>): (k: Memory)
    requires buffer in m.contents && |data| == |m.contents[buffer]|
    ensures SameBut(m, k, buffer) && SameMarks(m, k) && k.contents[buffer] == data
  {
    m.(contents := m.contents[buffer := data])
  }

  /** What a graph launches, if there is a graph and anything was captured. */
  function Noted(m: Memory, graph: Option<Handle>, launch: Option<Launch>): Memory {
    if graph.Some? && launch.Some? then m.(graphs := m.graphs[graph.value := launch.value]) else m
  }
}
