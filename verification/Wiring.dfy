/** How the resources of an engine are wired up in the foreign runtime: sizes, addresses and the graph. */
module Wiring {
  import opened Results
  import opened Device
  import opened Driver
  import opened Resources

  predicate Sized(m: Memory, h: Option<Handle>, n: int) {
    h.Some? ==> h.value in m.contents && |m.contents[h.value]| == n
  }

  /** What is bound is the engine's own. */
  predicate BindsOwn(r: Resources, b: Binding) {
    (b.input.Some? ==> b.input == r.inputDevice) && (b.output.Some? ==> b.output == r.outputDevice)
  }

  /** The buffers have their sizes, and a graph launches the context as it is bound. */
  predicate Wired(r: Resources, m: Memory, inputs: int, outputs: int) {
    && Sized(m, r.inputDevice, inputs) && Sized(m, r.inputHost, inputs)
    && Sized(m, r.outputDevice, outputs) && Sized(m, r.outputHost, outputs)
    && (r.context.Some? ==> r.context.value in m.bindings && BindsOwn(r, m.bindings[r.context.value]))
    && (r.graphExecution.Some? ==>
          && r.context.Some?
          && r.graphExecution.value in m.graphs
          && m.graphs[r.graphExecution.value] == Launch(r.context.value, m.bindings[r.context.value]))
  }

  /** Both addresses are set. */
  predicate IsBound(r: Resources, m: Memory) {
    && r.context.Some? && r.context.value in m.bindings
    && r.inputDevice.Some? && r.outputDevice.Some?
    && m.bindings[r.context.value] == Binding(r.inputDevice, r.outputDevice)
  }

  /** No address is set. */
  predicate IsUnbound(r: Resources, m: Memory) {
    r.context.Some? ==> r.context.value in m.bindings && m.bindings[r.context.value] == UNBOUND
  }

  lemma NothingWired(m: Memory, inputs: int, outputs: int)
    ensures Wired(NOTHING, m, inputs, outputs) && !IsBound(NOTHING, m) && IsUnbound(NOTHING, m)
  {
  }

  /** Work changes contents, and nothing of the wiring. */
  lemma ShapeKeeps(r: Resources, m: Memory, k: Memory, inputs: int, outputs: int)
    requires SameShape(m, k) && Wired(r, m, inputs, outputs)
    ensures Wired(r, k, inputs, outputs) && (IsBound(r, k) <==> IsBound(r, m))
  {
  }

  lemma ShapeChain(m: Memory, k: Memory, l: Memory)
    requires SameShape(m, k) && SameShape(k, l)
    ensures SameShape(m, l)
  {
  }

  /** Streams, events and the model have no part in it. */
  lemma SameWires(r: Resources, q: Resources, m: Memory, inputs: int, outputs: int)
    requires Wired(r, m, inputs, outputs) && IsUnbound(r, m)
    requires q.context == r.context && q.graphExecution == r.graphExecution
    requires q.inputDevice == r.inputDevice && q.outputDevice == r.outputDevice
    requires q.inputHost == r.inputHost && q.outputHost == r.outputHost
    ensures Wired(q, m, inputs, outputs) && IsUnbound(q, m)
  {
  }

  lemma ContextWired(r: Resources, m: Memory, context: Handle, inputs: int, outputs: int)
    requires Wired(r, m, inputs, outputs) && r.context.None?
    ensures var q, k := r.(context := Some(context)), m.(bindings := m.bindings[context := UNBOUND]);
      Wired(q, k, inputs, outputs) && IsUnbound(q, k)
  {
  }

  /** How many elements a kind of buffer is for. */
  function SizeOf(kind: Kind, inputs: int, outputs: int): int {
    if kind.InputDevice? || kind.InputHost? then inputs else outputs
  }

  lemma BufferWired(r: Resources, live: set<Handle>, temporaries: set<Handle>, m: Memory, k: Memory, kind: Kind,
                    h: Handle, inputs: int, outputs: int)
    requires kind.InputDevice? || kind.OutputDevice? || kind.InputHost? || kind.OutputHost?
    requires Wired(r, m, inputs, outputs) && IsUnbound(r, m) && Accounted(r, live, temporaries) && h !in live
    requires Slot(r, kind) == None && SizeOf(kind, inputs, outputs) >= 0
    requires Allocated(m, k, h, SizeOf(kind, inputs, outputs))
    ensures Wired(With(r, kind, Some(h)), k, inputs, outputs) && IsUnbound(With(r, kind, Some(h)), k)
  {
    hide Accounted;
    BuffersLive(r, live, temporaries);
  }

  lemma BuffersLive(r: Resources, live: set<Handle>, temporaries: set<Handle>)
    requires Accounted(r, live, temporaries)
    ensures Held(r.inputDevice) + Held(r.outputDevice) + Held(r.inputHost) + Held(r.outputHost) <= live
  {
    hide Accounted;
    HeldIsLive(r, live, temporaries, InputDevice);
    HeldIsLive(r, live, temporaries, OutputDevice);
    HeldIsLive(r, live, temporaries, InputHost);
    HeldIsLive(r, live, temporaries, OutputHost);
  }

  /** The first address is set; the second completes the binding. */
  lemma BindWired(r: Resources, m: Memory, inputs: int, outputs: int)
    requires Wired(r, m, inputs, outputs) && IsUnbound(r, m) && r.graphExecution.None?
    requires r.context.Some? && r.inputDevice.Some? && r.outputDevice.Some?
    ensures !IsBound(r, m)
    ensures var c := r.context.value;
      var half := m.(bindings := m.bindings[c := Bound(m.bindings[c], InputPort, r.inputDevice.value)]);
      var full := half.(bindings := half.bindings[c := Bound(half.bindings[c], OutputPort, r.outputDevice.value)]);
      && Wired(r, half, inputs, outputs) && !IsBound(r, half)
      && Wired(r, full, inputs, outputs) && IsBound(r, full)
  {
  }

  /** A graph that the engine does not hold makes no difference. */
  lemma NotedKeeps(r: Resources, m: Memory, graph: Option<Handle>, launch: Option<Launch>, inputs: int, outputs: int)
    requires Wired(r, m, inputs, outputs) && r.graphExecution.None?
    ensures Wired(r, Noted(m, graph, launch), inputs, outputs)
    ensures IsBound(r, Noted(m, graph, launch)) <==> IsBound(r, m)
  {
  }

  lemma GraphWired(r: Resources, m: Memory, graph: Option<Handle>, launch: Launch, inputs: int, outputs: int)
    requires Wired(r.(graphExecution := None), m, inputs, outputs) && r.graphExecution == graph
    requires r.context.Some? && launch == Launch(r.context.value, m.bindings[r.context.value])
    ensures Wired(r, Noted(m, graph, Some(launch)), inputs, outputs)
    ensures IsBound(r, Noted(m, graph, Some(launch))) <==> IsBound(r.(graphExecution := None), m)
  {
  }

  /** A launch of the context touches live buffers only. */
  lemma TouchedLive(r: Resources, live: set<Handle>, temporaries: set<Handle>, m: Memory, inputs: int, outputs: int)
    requires Accounted(r, live, temporaries) && Wired(r, m, inputs, outputs) && r.context.Some?
    ensures r.context.value in m.bindings && Touched(m.bindings[r.context.value]) <= live
  {
    hide Accounted;
    BuffersLive(r, live, temporaries);
  }
}
