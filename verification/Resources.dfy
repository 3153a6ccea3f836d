/** The resources an engine may hold, one field a kind, and how they account for what is live. */
module Resources {
  import opened Results
  import opened Device
  import opened Driver

  datatype Resources = Resources(
    runtime: Option<Handle>, engine: Option<Handle>, context: Option<Handle>, stream: Option<Handle>,
    deviceStart: Option<Handle>, deviceStop: Option<Handle>, inputDevice: Option<Handle>,
    outputDevice: Option<Handle>, inputHost: Option<Handle>, outputHost: Option<Handle>,
    graphExecution: Option<Handle>)

  const NOTHING := Resources(None, None, None, None, None, None, None, None, None, None, None)

  /** Kinds that only live within one call, and have no field. */
  predicate IsScoped(kind: Kind) {
    kind.CapturedGraph? || kind.Builder? || kind.Network? || kind.Parser? || kind.BuilderConfig?
    || kind.SerializedNetwork?
  }

  function Slot(r: Resources, kind: Kind): Option<Handle> {
    match kind
    case InferRuntime => r.runtime
    case CudaEngine => r.engine
    case ExecutionContext => r.context
    case Stream => r.stream
    case StartEvent => r.deviceStart
    case StopEvent => r.deviceStop
    case InputDevice => r.inputDevice
    case OutputDevice => r.outputDevice
    case InputHost => r.inputHost
    case OutputHost => r.outputHost
    case GraphExecution => r.graphExecution
    case _ => None
  }

  function With(r: Resources, kind: Kind, h: Option<Handle>): Resources {
    match kind
    case InferRuntime => r.(runtime := h)
    case CudaEngine => r.(engine := h)
    case ExecutionContext => r.(context := h)
    case Stream => r.(stream := h)
    case StartEvent => r.(deviceStart := h)
    case StopEvent => r.(deviceStop := h)
    case InputDevice => r.(inputDevice := h)
    case OutputDevice => r.(outputDevice := h)
    case InputHost => r.(inputHost := h)
    case OutputHost => r.(outputHost := h)
    case GraphExecution => r.(graphExecution := h)
    case _ => r
  }

  lemma WithSlot(r: Resources, kind: Kind, h: Option<Handle>)
    ensures forall k :: Slot(With(r, kind, h), k) == if k == kind && !IsScoped(k) then h else Slot(r, k)
  {
  }

  /** No resource is held without the one acquired before it. */
  predicate InOrder(r: Resources) {
    && (r.engine.Some? ==> r.runtime.Some?)
    && (r.context.Some? ==> r.engine.Some?)
    && (r.stream.Some? ==> r.context.Some?)
    && (r.deviceStart.Some? ==> r.stream.Some?)
    && (r.deviceStop.Some? ==> r.deviceStart.Some?)
    && (r.inputDevice.Some? ==> r.deviceStop.Some?)
    && (r.outputDevice.Some? ==> r.inputDevice.Some?)
    && (r.inputHost.Some? ==> r.outputDevice.Some?)
    && (r.outputHost.Some? ==> r.inputHost.Some?)
    && (r.graphExecution.Some? ==> r.stream.Some?)
  }

  /** What `infer_into` tests covers everything it uses, the timing events included. */
  lemma GuardCoversEvents(r: Resources)
    requires InOrder(r) && r.outputHost.Some?
    ensures r.deviceStart.Some? && r.deviceStop.Some? && r.stream.Some? && r.context.Some?
    ensures r.inputDevice.Some? && r.outputDevice.Some? && r.inputHost.Some?
  {
  }

  lemma NothingInOrder()
    ensures InOrder(NOTHING)
  {
  }

  /** Every field holds its own kind; live is what the fields hold, and some temporaries. */
  ghost predicate Accounted(r: Resources, live: set<Handle>, temporaries: set<Handle>) {
    && (forall kind :: Slot(r, kind).Some? ==> Slot(r, kind).value.kind == kind)
    && (forall h :: h in live <==> Slot(r, h.kind) == Some(h) || h in temporaries)
    && (forall h :: h in temporaries ==> IsScoped(h.kind))
  }

  lemma Dropped(r: Resources, live: set<Handle>, temporaries: set<Handle>, kind: Kind)
    requires Accounted(r, live, temporaries) && !IsScoped(kind)
    ensures Held(Slot(r, kind)) <= live
    ensures Slot(r, kind).Some? ==> Slot(r, kind).value.kind == kind
    ensures Accounted(With(r, kind, None), live - Held(Slot(r, kind)), temporaries)
  {
    hide Slot, With, IsScoped;
    WithSlot(r, kind, None);
  }

  /** Nothing live rests on a resource once what could rest on it is gone. */
  lemma Unused(r: Resources, live: set<Handle>, temporaries: set<Handle>, kind: Kind)
    requires Accounted(r, live, temporaries)
    requires (kind.CudaEngine? ==> r.context.None?) && (kind.InferRuntime? ==> r.engine.None?)
    ensures Spares(live, kind)
  {
  }

  lemma Taken(r: Resources, live: set<Handle>, temporaries: set<Handle>, kind: Kind, h: Option<Handle>)
    requires Accounted(r, live, temporaries) && !IsScoped(kind) && Slot(r, kind) == None
    requires h.Some? ==> h.value.kind == kind
    ensures Accounted(With(r, kind, h), live + Held(h), temporaries)
  {
    hide Slot, With, IsScoped;
    WithSlot(r, kind, h);
  }

  lemma Borrowed(r: Resources, live: set<Handle>, temporaries: set<Handle>, h: Option<Handle>)
    requires Accounted(r, live, temporaries) && (h.Some? ==> IsScoped(h.value.kind))
    ensures Accounted(r, live + Held(h), temporaries + Held(h))
  {
  }

  /** The executable graph takes its field while the captured one is destroyed. */
  lemma GraphTaken(r: Resources, live: set<Handle>, during: set<Handle>, after: set<Handle>, captured: Handle,
                   graph: Option<Handle>)
    requires Accounted(r.(graphExecution := None), live, {}) && captured !in live && during == live + {captured}
    requires r.graphExecution == graph && (graph.Some? ==> graph.value.kind == GraphExecution && graph.value !in during)
    requires after == during + Held(graph) - {captured}
    ensures Accounted(r, after, {})
  {
    hide Accounted;
    Taken(r.(graphExecution := None), live, {}, Kind.GraphExecution, graph);
    assert after == live + Held(graph);
  }

  /** Temporaries that are let go leave the fields accounted for. */
  lemma Returned(r: Resources, live: set<Handle>, temporaries: set<Handle>)
    requires Accounted(r, live, temporaries)
    ensures temporaries <= live && Accounted(r, live - temporaries, {})
    ensures forall h :: h in temporaries ==> IsScoped(h.kind)
  {
    forall kind
      ensures Slot(r, kind).Some? ==> !IsScoped(kind)
    {
    }
  }

  lemma HeldIsLive(r: Resources, live: set<Handle>, temporaries: set<Handle>, kind: Kind)
    requires Accounted(r, live, temporaries)
    ensures Held(Slot(r, kind)) <= live
  {
  }

  lemma AllLive(r: Resources, live: set<Handle>)
    requires Accounted(r, live, {})
    ensures Held(r.context) + Held(r.stream) + Held(r.deviceStart) + Held(r.deviceStop) + Held(r.inputDevice)
            + Held(r.outputDevice) + Held(r.inputHost) + Held(r.outputHost) <= live
  {
    hide Accounted;
    HeldIsLive(r, live, {}, ExecutionContext);
    HeldIsLive(r, live, {}, Stream);
    HeldIsLive(r, live, {}, StartEvent);
    HeldIsLive(r, live, {}, StopEvent);
    HeldIsLive(r, live, {}, InputDevice);
    HeldIsLive(r, live, {}, OutputDevice);
    HeldIsLive(r, live, {}, InputHost);
    HeldIsLive(r, live, {}, OutputHost);
  }

  lemma NothingLive(live: set<Handle>)
    ensures Accounted(NOTHING, live, {}) <==> live == {}
  {
  }

  function Timers(r: Resources): seq<Handle> {
    Listed(r.deviceStart) + Listed(r.deviceStop) + Listed(r.graphExecution) + Listed(r.stream)
  }

  function Buffers(r: Resources): seq<Handle> {
    Listed(r.inputHost) + Listed(r.outputHost) + Listed(r.inputDevice) + Listed(r.outputDevice)
  }

  function ModelHandles(r: Resources): seq<Handle> {
    Listed(r.context) + Listed(r.engine) + Listed(r.runtime)
  }

  /** What is released, and in which order: context, engine and runtime last. */
  function ReleaseOrder(r: Resources): seq<Handle> {
    Timers(r) + Buffers(r) + ModelHandles(r)
  }

  /** If both were held, `a` stands before `b`. */
  ghost predicate Before(s: seq<Handle>, a: Option<Handle>, b: Option<Handle>) {
    a.Some? && b.Some? ==> exists i, j :: 0 <= i < j < |s| && s[i] == a.value && s[j] == b.value
  }

  /**
   An order of release in which nothing outlives what it needs: the context goes before its engine, the
   engine before its runtime, all other resources before the context, and the graph before the stream.
   */
  ghost predicate ReleasedSafely(r: Resources, s: seq<Handle>) {
    && Before(s, r.context, r.engine) && Before(s, r.engine, r.runtime)
    && Before(s, r.graphExecution, r.stream)
    && Before(s, r.deviceStart, r.context) && Before(s, r.deviceStop, r.context)
    && Before(s, r.graphExecution, r.context) && Before(s, r.stream, r.context)
    && Before(s, r.inputHost, r.context) && Before(s, r.outputHost, r.context)
    && Before(s, r.inputDevice, r.context) && Before(s, r.outputDevice, r.context)
  }

  lemma Apart(front: seq<Handle>, back: seq<Handle>, a: Option<Handle>, b: Option<Handle>)
    requires (a.Some? ==> a.value in front) && (b.Some? ==> b.value in back)
    ensures Before(front + back, a, b)
  {
    if a.Some? && b.Some? {
      var s := front + back;
      var i :| 0 <= i < |front| && front[i] == a.value;
      var j :| 0 <= j < |back| && back[j] == b.value;
      assert s[i] == a.value && s[|front| + j] == b.value;
    }
  }

  lemma ReleaseOrderSafe(r: Resources, more: seq<Handle>)
    ensures ReleasedSafely(r, ReleaseOrder(r) + more)
  {
    hide Before;
    var s := ReleaseOrder(r) + more;
    var work, model := Timers(r) + Buffers(r), ModelHandles(r) + more;
    assert s == work + model;
    Apart(work, model, r.deviceStart, r.context);
    Apart(work, model, r.deviceStop, r.context);
    Apart(work, model, r.graphExecution, r.context);
    Apart(work, model, r.stream, r.context);
    Apart(work, model, r.inputHost, r.context);
    Apart(work, model, r.outputHost, r.context);
    Apart(work, model, r.inputDevice, r.context);
    Apart(work, model, r.outputDevice, r.context);
    ModelOrderSafe(r, work, more);
    GraphOrderSafe(r, more);
  }

  lemma ModelOrderSafe(r: Resources, work: seq<Handle>, more: seq<Handle>)
    ensures Before(work + (ModelHandles(r) + more), r.context, r.engine)
    ensures Before(work + (ModelHandles(r) + more), r.engine, r.runtime)
  {
    hide Before;
    var c, e, t := Listed(r.context), Listed(r.engine), Listed(r.runtime);
    assert work + (ModelHandles(r) + more) == (work + c) + (e + t + more);
    Apart(work + c, e + t + more, r.context, r.engine);
    assert work + (ModelHandles(r) + more) == (work + c + e) + (t + more);
    Apart(work + c + e, t + more, r.engine, r.runtime);
  }

  lemma GraphOrderSafe(r: Resources, more: seq<Handle>)
    ensures Before(ReleaseOrder(r) + more, r.graphExecution, r.stream)
  {
    hide Before, Timers, Buffers, ModelHandles;
    var rest := Buffers(r) + ModelHandles(r) + more;
    TimerOrderSafe(r);
    Longer(Timers(r), rest, r.graphExecution, r.stream);
    assert ReleaseOrder(r) + more == Timers(r) + rest;
  }

  lemma TimerOrderSafe(r: Resources)
    ensures Before(Timers(r), r.graphExecution, r.stream)
  {
    hide Before;
    Apart(Listed(r.deviceStart) + Listed(r.deviceStop) + Listed(r.graphExecution), Listed(r.stream), r.graphExecution,
          r.stream);
  }

  lemma Longer(s: seq<Handle>, more: seq<Handle>, a: Option<Handle>, b: Option<Handle>)
    requires Before(s, a, b)
    ensures Before(s + more, a, b)
  {
    if a.Some? && b.Some? {
      var i, j :| 0 <= i < j < |s| && s[i] == a.value && s[j] == b.value;
      assert (s + more)[i] == a.value && (s + more)[j] == b.value;
    }
  }

  /** Each group is released from its own fields. */
  lemma ReleasedApart(r: Resources, q: Resources)
    ensures (r.inputHost == q.inputHost && r.outputHost == q.outputHost && r.inputDevice == q.inputDevice
             && r.outputDevice == q.outputDevice) ==> Buffers(r) == Buffers(q)
    ensures r.context == q.context && r.engine == q.engine && r.runtime == q.runtime ==>
      ModelHandles(r) == ModelHandles(q)
  {
  }

  lemma Append(r: seq<Handle>, a: seq<Handle>, b: seq<Handle>, c: seq<Handle>, d: seq<Handle>)
    ensures r + a + b + c + d == r + (a + b + c + d)
    ensures r + a + b + c == r + (a + b + c)
  {
  }
}
