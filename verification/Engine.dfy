/**
 The TensorRT engine: eleven owned resources that are acquired in one order, released in another, and
 used in between, where every foreign call may fail.
 */
module Engine {
  import opened Results
  import opened Metrics
  import opened Device
  import opened Driver
  import opened Resources
  import opened Wiring
  import opened Volume

  const FLOAT_BYTES: int := 4
  const WORD: int := 0x1_0000_0000_0000_0000

  /** A multiplication by the size of a float, in the machine's arithmetic. */
  function FloatBytes(elements: int): Size {
    elements * FLOAT_BYTES % WORD
  }

  /** The byte size is the true one exactly below a quarter of the address range. */
  lemma FloatBytesExact(elements: Size)
    ensures FloatBytes(elements) == 4 * elements <==> elements < 0x4000_0000_0000_0000
    ensures FLOAT_BYTES == 4 && WORD / FLOAT_BYTES == 0x4000_0000_0000_0000
    ensures FloatBytes(elements) % FLOAT_BYTES == 0
  {
  }

  /**
   The size check of an inference compares byte counts after wrapping: it takes the element count for
   right exactly when it agrees with the expected one modulo a quarter of the address range.
   */
  lemma SizeCheckExact(elements: Size, bytes: Size)
    requires bytes % FLOAT_BYTES == 0
    ensures FloatBytes(elements) == bytes <==> elements % (WORD / FLOAT_BYTES) == bytes / FLOAT_BYTES
  {
  }

  /** The bytes that pass the check are within the elements announced. */
  lemma SizeCheckCovers(elements: Size)
    ensures FloatBytes(elements) / FLOAT_BYTES <= elements
  {
  }

  /**
   An engine that accepts `n` elements accepts exactly those counts that agree with it modulo a quarter
   of the address range, the count that is larger by that quarter included.
   */
  lemma SizeCheckWraps(e: TensorRTEngine, n: Size, m: Size, capacity: Size)
    requires e.Accepts(true, n, true, capacity) && m != 0
    ensures e.Accepts(true, m, true, capacity) <==> m % (WORD / FLOAT_BYTES) == n % (WORD / FLOAT_BYTES)
    ensures m == n + WORD / FLOAT_BYTES ==> e.Accepts(true, m, true, capacity)
  {
    SizeCheckExact(m, FloatBytes(n));
    SizeCheckExact(n, FloatBytes(n));
    FloatBytesExact(n);
  }

  /**
   In terms of the model that was loaded, with shapes below a quarter of the address range: a call is
   accepted exactly with the elements of the input shape, and an output buffer that holds those of the
   output shape, a buffer of just that size included.
   */
  lemma AcceptsExactly(e: TensorRTEngine, model: Model, elements: Size, capacity: Size)
    requires e.Valid() && e.loaded && model.Valid() && e.Describes(model) && Runnable(model)
    requires elements < WORD / FLOAT_BYTES
    requires Product(model.dims(e.inputName).Used()) < WORD / FLOAT_BYTES
    requires Product(model.dims(e.outputName).Used()) < WORD / FLOAT_BYTES
    ensures e.Accepts(true, elements, true, capacity) <==>
      elements == Product(model.dims(e.inputName).Used()) && Product(model.dims(e.outputName).Used()) <= capacity
    ensures !e.Accepts(false, elements, true, capacity) && !e.Accepts(true, elements, false, capacity)
  {
    hide Product, Names, AllPositive, Accounted, InOrder, Wired, IsBound;
    var inputs, outputs := Product(model.dims(e.inputName).Used()), Product(model.dims(e.outputName).Used());
    ProductPositive(model.dims(e.inputName).Used());
    ProductPositive(model.dims(e.outputName).Used());
    FloatBytesExact(inputs);
    FloatBytesExact(outputs);
    FloatBytesExact(elements);
  }

  datatype Mode = Input | Output | Other

  /** How far a load came: not to all handles, to all of them but not to their addresses, or to the end. */
  datatype Stage = Incomplete | Unbound | Complete

  /** A tensor an engine exposes. Its name may be missing. */
  datatype Tensor = Tensor(name: Option<string>, mode: Mode)

  /** What a deserialised engine answers to the queries that are made of it. */
  datatype Model = Model(tensors: seq<Tensor>, isFloat: string -> bool, dims: string -> Dims) {
    ghost predicate Valid() {
      forall name :: dims(name).Valid()
    }
  }

  /** What the file system answers for a model path. */
  datatype File = Unreadable | EmptyFile | Contents

  // ---------------------------------------------------------------- tensor names

  /** The names of the tensors of a mode, in order, those without a name left out. */
  function Names(tensors: seq<Tensor>, mode: Mode): seq<string> {
    if tensors == [] then []
    else
      var last := tensors[|tensors| - 1];
      Names(tensors[..|tensors| - 1], mode) + if last.name.Some? && last.mode == mode then [last.name.value] else []
  }

  /** At most one name that is not empty, and none after it. */
  predicate AtMostOne(names: seq<string>) {
    forall i :: 0 <= i < |names| - 1 ==> names[i] == ""
  }

  /** The name a scan ends up with. */
  function Chosen(names: seq<string>): string {
    if names == [] then "" else names[|names| - 1]
  }

  const UNKNOWN := Runtime("", "", "", "", "", 0)

  class TensorRTEngine {
    const api: Api

    var runtime: Option<Handle>
    var engine: Option<Handle>
    var context: Option<Handle>
    var stream: Option<Handle>
    var deviceStart: Option<Handle>
    var deviceStop: Option<Handle>
    var inputDevice: Option<Handle>
    var outputDevice: Option<Handle>
    var inputHost: Option<Handle>
    var outputHost: Option<Handle>
    var graphExecution: Option<Handle>

    var inputBytes: Size
    var outputBytes: Size
    var inputName: string
    var outputName: string
    var lastDeviceLatencyUs: Option<real>
    var metadata: Runtime

    /** The device times of all successful inferences, in order. */
    ghost var timings: seq<real>
    /** Whether the latest load or inference was a successful inference. */
    ghost var justInferred: bool
    /** Whether the latest load succeeded, and nothing was released since. */
    ghost var loaded: bool

    /** What the fields hold. */
    ghost function Fields(): Resources
      reads this
    {
      Resources(runtime, engine, context, stream, deviceStart, deviceStop, inputDevice, outputDevice, inputHost,
                outputHost, graphExecution)
    }

    /** The device time on display is the latest one, and only right after an inference. */
    ghost predicate TimingFresh()
      reads this
    {
      && (justInferred ==> timings != [])
      && lastDeviceLatencyUs == if justInferred then Some(timings[|timings| - 1]) else None
    }

    /** The fields account for everything that is live, while a scope holds some temporaries. */
    ghost predicate Sound(temporaries: set<Handle>)
      reads this, api
    {
      api.Valid() && !api.capturing && Accounted(Fields(), api.live, temporaries)
    }

    /** The runtime knows the buffers, the addresses and the graph as the fields have them. */
    ghost predicate Installed()
      reads this, api`memory
    {
      Wired(Fields(), api.memory, inputBytes / FLOAT_BYTES, outputBytes / FLOAT_BYTES)
    }

    /**
     The invariant between any two calls. The tensor addresses are bound exactly when the latest load
     succeeded.
     */
    ghost predicate Valid()
      reads this, api
    {
      && Sound({}) && InOrder(Fields()) && TimingFresh() && Installed() && Whole()
      && (loaded <==> IsBound(Fields(), api.memory))
      && (loaded ==> Ready())
    }

    /** The byte sizes are those of a number of floats. */
    predicate Whole()
      reads this`inputBytes, this`outputBytes
    {
      inputBytes % FLOAT_BYTES == 0 && outputBytes % FLOAT_BYTES == 0
    }

    /** Nothing is held, and nothing is known about a model. */
    ghost predicate Empty()
      reads this
    {
      && Fields() == NOTHING
      && inputBytes == 0 && outputBytes == 0 && inputName == "" && outputName == ""
      && lastDeviceLatencyUs.None? && metadata == UNKNOWN && !loaded
    }

    constructor (api: Api)
      requires api.Valid() && api.live == {} && !api.capturing
      ensures Valid() && Empty() && this.api == api && timings == [] && !justInferred
    {
      this.api := api;
      runtime, engine, context, stream, deviceStart, deviceStop := None, None, None, None, None, None;
      inputDevice, outputDevice, inputHost, outputHost, graphExecution := None, None, None, None, None;
      inputBytes, outputBytes, inputName, outputName := 0, 0, "", "";
      lastDeviceLatencyUs, metadata := None, UNKNOWN;
      timings, justInferred, loaded := [], false, false;
      new;
      NothingLive(api.live);
      NothingWired(api.memory, 0, 0);
    }

    /** Queued work is waited for, if there is a stream; a failure of that is ignored. */
    method Settle()
      requires Sound({})
      modifies api`memory, api`failures
      ensures old(api.failures) <= api.failures <= old(api.failures) + |Listed(stream)|
    {
      hide Accounted;
      HeldIsLive(Fields(), api.live, {}, Stream);
      if stream.Some? {
        var _ := api.Synchronize(stream.value);
      }
    }

    method ReleaseEvents()
      requires Sound({})
      modifies this`deviceStart, this`deviceStop, api
      ensures Sound({}) && deviceStart.None? && deviceStop.None? && api.failures == old(api.failures)
      ensures api.released == old(api.released) + old(Listed(deviceStart)) + old(Listed(deviceStop))
    {
      hide Accounted, Spares;
      Dropped(Fields(), api.live, {}, StartEvent);
      Unused(Fields(), api.live, {}, StartEvent);
      api.ReleaseIfHeld(deviceStart);
      deviceStart := None;
      Dropped(Fields(), api.live, {}, StopEvent);
      Unused(Fields(), api.live, {}, StopEvent);
      api.ReleaseIfHeld(deviceStop);
      deviceStop := None;
    }

    method ReleaseQueue()
      requires Sound({})
      modifies this`graphExecution, this`stream, api
      ensures Sound({}) && graphExecution.None? && stream.None? && api.failures == old(api.failures)
      ensures api.released == old(api.released) + old(Listed(graphExecution)) + old(Listed(stream))
    {
      hide Accounted, Spares;
      Dropped(Fields(), api.live, {}, Kind.GraphExecution);
      Unused(Fields(), api.live, {}, Kind.GraphExecution);
      api.ReleaseIfHeld(graphExecution);
      graphExecution := None;
      Dropped(Fields(), api.live, {}, Stream);
      Unused(Fields(), api.live, {}, Stream);
      api.ReleaseIfHeld(stream);
      stream := None;
    }

    method ReleaseTimers()
      requires Sound({})
      modifies this`deviceStart, this`deviceStop, this`graphExecution, this`stream, api
      ensures Sound({})
      ensures deviceStart.None? && deviceStop.None? && graphExecution.None? && stream.None?
      ensures api.released == old(api.released) + old(Timers(Fields()))
      ensures old(api.failures) <= api.failures <= old(api.failures) + |Listed(old(stream))|
    {
      hide Accounted;
      Settle();
      ReleaseEvents();
      ReleaseQueue();
      Append(old(api.released), old(Listed(deviceStart)), old(Listed(deviceStop)), old(Listed(graphExecution)),
             old(Listed(stream)));
    }

    method ReleaseHostBuffers()
      requires Sound({})
      modifies this`inputHost, this`outputHost, api
      ensures Sound({}) && inputHost.None? && outputHost.None? && api.failures == old(api.failures)
      ensures api.released == old(api.released) + old(Listed(inputHost)) + old(Listed(outputHost))
    {
      hide Accounted, Spares;
      Dropped(Fields(), api.live, {}, InputHost);
      Unused(Fields(), api.live, {}, InputHost);
      api.ReleaseIfHeld(inputHost);
      inputHost := None;
      Dropped(Fields(), api.live, {}, OutputHost);
      Unused(Fields(), api.live, {}, OutputHost);
      api.ReleaseIfHeld(outputHost);
      outputHost := None;
    }

    method ReleaseDeviceBuffers()
      requires Sound({})
      modifies this`inputDevice, this`outputDevice, api
      ensures Sound({}) && inputDevice.None? && outputDevice.None? && api.failures == old(api.failures)
      ensures api.released == old(api.released) + old(Listed(inputDevice)) + old(Listed(outputDevice))
    {
      hide Accounted, Spares;
      Dropped(Fields(), api.live, {}, InputDevice);
      Unused(Fields(), api.live, {}, InputDevice);
      api.ReleaseIfHeld(inputDevice);
      inputDevice := None;
      Dropped(Fields(), api.live, {}, OutputDevice);
      Unused(Fields(), api.live, {}, OutputDevice);
      api.ReleaseIfHeld(outputDevice);
      outputDevice := None;
    }

    method ReleaseBuffers()
      requires Sound({})
      modifies this`inputHost, this`outputHost, this`inputDevice, this`outputDevice, api
      ensures Sound({})
      ensures inputHost.None? && outputHost.None? && inputDevice.None? && outputDevice.None?
      ensures api.released == old(api.released) + old(Buffers(Fields())) && api.failures == old(api.failures)
    {
      hide Accounted;
      ReleaseHostBuffers();
      ReleaseDeviceBuffers();
      Append(old(api.released), old(Listed(inputHost)), old(Listed(outputHost)), old(Listed(inputDevice)),
             old(Listed(outputDevice)));
    }

    method ReleaseModel()
      requires Sound({})
      modifies this`context, this`engine, this`runtime, api
      ensures Sound({})
      ensures context.None? && engine.None? && runtime.None?
      ensures api.released == old(api.released) + old(ModelHandles(Fields())) && api.failures == old(api.failures)
    {
      hide Accounted, Spares;
      Dropped(Fields(), api.live, {}, ExecutionContext);
      Unused(Fields(), api.live, {}, ExecutionContext);
      api.ReleaseIfHeld(context);
      context := None;
      Dropped(Fields(), api.live, {}, CudaEngine);
      Unused(Fields(), api.live, {}, CudaEngine);
      api.ReleaseIfHeld(engine);
      engine := None;
      Dropped(Fields(), api.live, {}, InferRuntime);
      Unused(Fields(), api.live, {}, InferRuntime);
      api.ReleaseIfHeld(runtime);
      runtime := None;
      Append(old(api.released), old(Listed(context)), old(Listed(engine)), old(Listed(runtime)), []);
    }

    method ReleaseAll()
      requires Sound({})
      modifies this`deviceStart, this`deviceStop, this`graphExecution, this`stream, this`inputHost, this`outputHost,
               this`inputDevice, this`outputDevice, this`context, this`engine, this`runtime, api
      ensures Sound({}) && Fields() == NOTHING
      ensures api.released == old(api.released) + old(ReleaseOrder(Fields()))
      ensures old(api.failures) <= api.failures <= old(api.failures) + |Listed(old(stream))|
    {
      hide Accounted, InOrder, Timers, Buffers, ModelHandles;
      ghost var held := Fields();
      ReleaseTimers();
      ReleasedApart(held, Fields());
      ReleaseBuffers();
      ReleasedApart(held, Fields());
      ReleaseModel();
      Append(old(api.released), Timers(held), Buffers(held), ModelHandles(held), []);
    }

    method Forget()
      modifies this`inputBytes, this`outputBytes, this`inputName, this`outputName, this`lastDeviceLatencyUs,
               this`justInferred, this`loaded, this`metadata
      ensures inputBytes == 0 && outputBytes == 0 && inputName == "" && outputName == ""
      ensures lastDeviceLatencyUs.None? && !justInferred && !loaded && metadata == UNKNOWN
    {
      inputBytes, outputBytes := 0, 0;
      inputName, outputName := "", "";
      lastDeviceLatencyUs := None;
      justInferred, loaded := false, false;
      metadata := UNKNOWN;
    }

    /**
     Everything held is released, once, in this order and nothing else; nothing is released before what
     rests on it. Waiting for the stream may fail, and that is ignored.
     */
    method DestroyResources()
      requires Valid()
      modifies this, api
      ensures Valid() && Empty() && api.live == {} && timings == old(timings) && !justInferred
      ensures api.released == old(api.released) + old(ReleaseOrder(Fields()))
      ensures ReleasedSafely(old(Fields()), api.released[|old(api.released)|..])
      ensures old(api.failures) <= api.failures <= old(api.failures) + |Listed(old(stream))|
    {
      hide Accounted, ReleaseOrder, ReleasedSafely;
      ReleaseOrderSafe(Fields(), []);
      assert ReleaseOrder(Fields()) + [] == ReleaseOrder(Fields());
      ReleaseAll();
      NothingLive(api.live);
      NothingInOrder();
      Forget();
      NothingWired(api.memory, 0, 0);
    }

    /** The scan of the tensor names finds one input and one output, or stops at a second one. */
    method ScanTensors(tensors: seq<Tensor>) returns (ok: bool)
      requires inputName == "" && outputName == ""
      modifies this`inputName, this`outputName
      ensures ok <==> AtMostOne(Names(tensors, Input)) && AtMostOne(Names(tensors, Output))
      ensures ok ==> inputName == Chosen(Names(tensors, Input)) && outputName == Chosen(Names(tensors, Output))
    {
      for i := 0 to |tensors|
        invariant AtMostOne(Names(tensors[..i], Input)) && AtMostOne(Names(tensors[..i], Output))
        invariant inputName == Chosen(Names(tensors[..i], Input))
        invariant outputName == Chosen(Names(tensors[..i], Output))
      {
        assert tensors[..i + 1][..i] == tensors[..i];
        var tensor := tensors[i];
        if tensor.name.None? {
          continue;
        }
        if tensor.mode == Input {
          if inputName != "" {
            SecondName(tensors, i, Input);
            return false;
          }
          inputName := tensor.name.value;
        } else if tensor.mode == Output {
          if outputName != "" {
            SecondName(tensors, i, Output);
            return false;
          }
          outputName := tensor.name.value;
        }
      }
      assert tensors[..|tensors|] == tensors;
      return true;
    }

    /** The two timing events, in this order; a failure leaves the rest unset. */
    method AcquireEvents(ghost temporaries: set<Handle>) returns (ok: bool)
      requires Sound(temporaries) && InOrder(Fields()) && stream.Some?
      requires deviceStart.None? && deviceStop.None? && inputDevice.None?
      modifies this`deviceStart, this`deviceStop, api
      ensures Sound(temporaries) && InOrder(Fields()) && api.released == old(api.released)
      ensures api.memory == old(api.memory)
      ensures ok <==> deviceStop.Some?
      ensures if ok then api.failures == old(api.failures) else api.failures > old(api.failures)
    {
      hide Accounted;
      ghost var before, live := Fields(), api.live;
      deviceStart := api.Acquire(StartEvent);
      Taken(before, live, temporaries, StartEvent, deviceStart);
      if deviceStart.None? {
        return false;
      }
      before, live := Fields(), api.live;
      deviceStop := api.Acquire(StopEvent);
      Taken(before, live, temporaries, StopEvent, deviceStop);
      return deviceStop.Some?;
    }

    /** The stream and the timing events. */
    method AcquireTimers(ghost temporaries: set<Handle>) returns (ok: bool)
      requires Sound(temporaries) && InOrder(Fields()) && context.Some?
      requires stream.None? && deviceStart.None? && deviceStop.None? && inputDevice.None?
      modifies this`stream, this`deviceStart, this`deviceStop, api
      ensures Sound(temporaries) && InOrder(Fields()) && api.released == old(api.released)
      ensures api.memory == old(api.memory)
      ensures ok <==> deviceStop.Some?
      ensures if ok then api.failures == old(api.failures) else api.failures > old(api.failures)
    {
      hide Accounted;
      ghost var before, live := Fields(), api.live;
      stream := api.Acquire(Stream);
      Taken(before, live, temporaries, Stream, stream);
      if stream.None? {
        return false;
      }
      ok := AcquireEvents(temporaries);
    }

    /** Both buffers have their sizes, and nothing is bound yet. */
    ghost predicate Prepared()
      reads this, api`memory
    {
      Installed() && IsUnbound(Fields(), api.memory) && graphExecution.None?
    }

    method AcquireDeviceBuffers(ghost temporaries: set<Handle>) returns (ok: bool)
      requires Sound(temporaries) && InOrder(Fields()) && Prepared() && deviceStop.Some?
      requires inputDevice.None? && outputDevice.None? && inputHost.None?
      modifies this`inputDevice, this`outputDevice, api
      ensures Sound(temporaries) && InOrder(Fields()) && Prepared() && api.released == old(api.released)
      ensures ok <==> outputDevice.Some?
      ensures if ok then api.failures == old(api.failures) else api.failures > old(api.failures)
    {
      hide Accounted, Wired, IsUnbound, Allocated;
      ghost var before, live, memory := Fields(), api.live, api.memory;
      inputDevice := api.AcquireBuffer(InputDevice, inputBytes / FLOAT_BYTES);
      Taken(before, live, temporaries, InputDevice, inputDevice);
      if inputDevice.None? {
        return false;
      }
      Placed(before, live, temporaries, memory, InputDevice, inputDevice.value);
      before, live, memory := Fields(), api.live, api.memory;
      outputDevice := api.AcquireBuffer(OutputDevice, outputBytes / FLOAT_BYTES);
      Taken(before, live, temporaries, OutputDevice, outputDevice);
      if outputDevice.None? {
        return false;
      }
      Placed(before, live, temporaries, memory, OutputDevice, outputDevice.value);
      return true;
    }

    method AcquireHostBuffers(ghost temporaries: set<Handle>) returns (ok: bool)
      requires Sound(temporaries) && InOrder(Fields()) && Prepared()
      requires outputDevice.Some? && inputHost.None? && outputHost.None?
      modifies this`inputHost, this`outputHost, api
      ensures Sound(temporaries) && InOrder(Fields()) && Prepared() && api.released == old(api.released)
      ensures ok <==> outputHost.Some?
      ensures if ok then api.failures == old(api.failures) else api.failures > old(api.failures)
    {
      hide Accounted, Wired, IsUnbound, Allocated;
      ghost var before, live, memory := Fields(), api.live, api.memory;
      inputHost := api.AcquireBuffer(InputHost, inputBytes / FLOAT_BYTES);
      Taken(before, live, temporaries, InputHost, inputHost);
      if inputHost.None? {
        return false;
      }
      Placed(before, live, temporaries, memory, InputHost, inputHost.value);
      before, live, memory := Fields(), api.live, api.memory;
      outputHost := api.AcquireBuffer(OutputHost, outputBytes / FLOAT_BYTES);
      Taken(before, live, temporaries, OutputHost, outputHost);
      if outputHost.None? {
        return false;
      }
      Placed(before, live, temporaries, memory, OutputHost, outputHost.value);
      return true;
    }

    /** A buffer that was just acquired is wired up. */
    lemma Placed(before: Resources, live: set<Handle>, temporaries: set<Handle>, memory: Memory, kind: Kind, h: Handle)
      requires kind.InputDevice? || kind.OutputDevice? || kind.InputHost? || kind.OutputHost?
      requires Accounted(before, live, temporaries) && h !in live && Slot(before, kind) == None
      requires Wired(before, memory, inputBytes / FLOAT_BYTES, outputBytes / FLOAT_BYTES) && IsUnbound(before, memory)
      requires Allocated(memory, api.memory, h, SizeOf(kind, inputBytes / FLOAT_BYTES, outputBytes / FLOAT_BYTES))
      requires Fields() == With(before, kind, Some(h)) && graphExecution.None?
      ensures Prepared()
    {
      hide Accounted, Wired, IsUnbound, Allocated;
      BufferWired(before, live, temporaries, memory, api.memory, kind, h, inputBytes / FLOAT_BYTES,
                  outputBytes / FLOAT_BYTES);
    }

    /** The names and byte sizes are those of the model. */
    ghost predicate Describes(model: Model)
      requires model.Valid()
      reads this`inputName, this`outputName, this`inputBytes, this`outputBytes
    {
      && inputName == Chosen(Names(model.tensors, Input))
      && outputName == Chosen(Names(model.tensors, Output))
      && inputBytes == FloatBytes(Product(model.dims(inputName).Used()))
      && outputBytes == FloatBytes(Product(model.dims(outputName).Used()))
    }

    /** The names are found, the types are floats and the shapes fixed; then the byte sizes are set. */
    method ReadShapes(model: Model) returns (ok: bool)
      requires model.Valid() && inputName == "" && outputName == "" && Whole()
      modifies this`inputName, this`outputName, this`inputBytes, this`outputBytes
      ensures ok <==> Runnable(model)
      ensures (ok ==> Describes(model)) && Whole()
    {
      hide Names, FloatBytes, Product, AllPositive;
      var scanned := ScanTensors(model.tensors);
      if !scanned || inputName == "" || outputName == "" {
        return false;
      }
      if !model.isFloat(inputName) || !model.isFloat(outputName) {
        return false;
      }
      var inputElements := CheckedVolume(model.dims(inputName));
      var outputElements := CheckedVolume(model.dims(outputName));
      if inputElements.None? || outputElements.None? {
        return false;
      }
      FloatBytesExact(inputElements.value);
      FloatBytesExact(outputElements.value);
      inputBytes := FloatBytes(inputElements.value);
      outputBytes := FloatBytes(outputElements.value);
      return true;
    }

    /** The context and everything after it; a failure leaves the rest unset. */
    method AcquireExecution(ghost temporaries: set<Handle>) returns (ok: bool)
      requires Sound(temporaries) && Fields() == NOTHING.(runtime := runtime, engine := engine)
      requires InOrder(Fields()) && engine.Some?
      modifies this`context, this`stream, this`deviceStart, this`deviceStop, this`inputDevice, this`outputDevice,
               this`inputHost, this`outputHost, api
      ensures Sound(temporaries) && InOrder(Fields()) && Prepared() && api.released == old(api.released)
      ensures ok <==> outputHost.Some?
      ensures if ok then api.failures == old(api.failures) else api.failures > old(api.failures)
    {
      hide Accounted, Wired, IsUnbound;
      ModelWired();
      ghost var before, live, memory := Fields(), api.live, api.memory;
      context := api.AcquireContext();
      Taken(before, live, temporaries, ExecutionContext, context);
      if context.None? {
        return false;
      }
      ContextWired(before, memory, context.value, inputBytes / FLOAT_BYTES, outputBytes / FLOAT_BYTES);
      before := Fields();
      ok := AcquireTimers(temporaries);
      SameWires(before, Fields(), api.memory, inputBytes / FLOAT_BYTES, outputBytes / FLOAT_BYTES);
      if !ok {
        return false;
      }
      ok := AcquireDeviceBuffers(temporaries);
      if !ok {
        return false;
      }
      ok := AcquireHostBuffers(temporaries);
    }

    /** A model alone has nothing wired up. */
    lemma ModelWired()
      requires Fields() == NOTHING.(runtime := runtime, engine := engine)
      ensures Prepared()
    {
      NothingWired(api.memory, inputBytes / FLOAT_BYTES, outputBytes / FLOAT_BYTES);
      hide Wired;
      SameWires(NOTHING, Fields(), api.memory, inputBytes / FLOAT_BYTES, outputBytes / FLOAT_BYTES);
    }

    /** Sets both tensor addresses. */
    method BindAddresses(ghost temporaries: set<Handle>) returns (ok: bool)
      requires Sound(temporaries) && InOrder(Fields()) && Prepared() && outputHost.Some?
      modifies api`memory, api`failures
      ensures Installed() && (ok <==> IsBound(Fields(), api.memory))
      ensures if ok then api.failures == old(api.failures) else api.failures > old(api.failures)
    {
      hide Accounted, Wired, IsBound;
      BindWired(Fields(), api.memory, inputBytes / FLOAT_BYTES, outputBytes / FLOAT_BYTES);
      HeldIsLive(Fields(), api.live, temporaries, ExecutionContext);
      HeldIsLive(Fields(), api.live, temporaries, InputDevice);
      HeldIsLive(Fields(), api.live, temporaries, OutputDevice);
      ok := api.Bind(context.value, InputPort, inputDevice.value);
      if !ok {
        return false;
      }
      ok := api.Bind(context.value, OutputPort, outputDevice.value);
    }

    /** Every handle that an inference asks for is there. */
    predicate Ready()
      reads this
    {
      context.Some? && stream.Some? && inputDevice.Some? && outputDevice.Some? && inputHost.Some? && outputHost.Some?
    }

    /** How a load ended: bound or not, and how far it came before. */
    ghost predicate Ended(ok: bool, stage: Stage)
      reads this, api`memory
    {
      && Installed() && Whole() && graphExecution.None?
      && (ok <==> IsBound(Fields(), api.memory)) && (ok <==> stage == Complete)
      && (Ready() <==> stage != Incomplete)
    }

    /** A load that ends before anything was bound. */
    lemma EndsUnbound()
      requires Prepared() && Whole() && InOrder(Fields()) && outputHost.None?
      ensures Ended(false, Incomplete)
    {
      hide Wired;
    }

    /** From a deserialised engine to one that can run; on failure what was acquired stays in the fields. */
    method InitializeExecution(model: Model, ghost temporaries: set<Handle>) returns (ok: bool, ghost stage: Stage)
      requires model.Valid() && Sound(temporaries) && Fields() == NOTHING.(runtime := runtime, engine := engine)
      requires InOrder(Fields()) && inputName == "" && outputName == "" && Whole()
      modifies this`context, this`stream, this`deviceStart, this`deviceStop, this`inputDevice, this`outputDevice,
               this`inputHost, this`outputHost, this`inputName, this`outputName, this`inputBytes, this`outputBytes,
               this`metadata, api
      ensures Sound(temporaries) && InOrder(Fields()) && api.released == old(api.released)
      ensures Ended(ok, stage)
      ensures stage != Incomplete ==> Runnable(model) && Describes(model)
      ensures ok ==> api.failures == old(api.failures)
      ensures !ok ==> api.failures > old(api.failures) || engine.None? || !Runnable(model)
    {
      hide Accounted, Runnable, Names, FloatBytes, Product, TensorRTEngine.Describes, Wired, IsBound, IsUnbound;
      stage := Incomplete;
      if engine.None? {
        ModelWired();
        EndsUnbound();
        return false, stage;
      }
      ok := ReadShapes(model);
      if !ok {
        ModelWired();
        EndsUnbound();
        return false, stage;
      }
      ok := AcquireExecution(temporaries);
      if !ok {
        EndsUnbound();
        return false, stage;
      }
      stage := Unbound;
      ok := BindAddresses(temporaries);
      if !ok {
        return false, stage;
      }
      metadata := *;
      return true, Complete;
    }

    method LoadModel(model: Model, ghost temporaries: set<Handle>) returns (ok: bool, ghost stage: Stage)
      requires model.Valid() && Sound(temporaries) && Fields() == NOTHING && inputName == "" && outputName == ""
      requires Whole()
      modifies this`runtime, this`engine, this`context, this`stream, this`deviceStart, this`deviceStop,
               this`inputDevice, this`outputDevice, this`inputHost, this`outputHost, this`inputName, this`outputName,
               this`inputBytes, this`outputBytes, this`metadata, api
      ensures Sound(temporaries) && InOrder(Fields()) && api.released == old(api.released)
      ensures Ended(ok, stage)
      ensures stage != Incomplete ==> Runnable(model) && Describes(model)
      ensures ok ==> api.failures == old(api.failures)
      ensures !ok ==> api.failures > old(api.failures) || !Runnable(model)
    {
      hide Accounted, Runnable, TensorRTEngine.Describes, TensorRTEngine.Prepared, TensorRTEngine.Ended;
      stage := Incomplete;
      ghost var before, live := Fields(), api.live;
      runtime := api.Acquire(InferRuntime);
      Taken(before, live, temporaries, InferRuntime, runtime);
      if runtime.None? {
        ModelWired();
        EndsUnbound();
        return false, stage;
      }
      before, live := Fields(), api.live;
      engine := api.Acquire(CudaEngine);
      Taken(before, live, temporaries, CudaEngine, engine);
      if engine.None? {
        ModelWired();
        EndsUnbound();
        return false, stage;
      }
      ok, stage := InitializeExecution(model, temporaries);
    }

    /** One more scoped owner, if it can be had. */
    method Borrow(kind: Kind, scope: seq<Handle>) returns (ok: bool, grown: seq<Handle>)
      requires Sound(Elements(scope)) && NoDuplicates(scope) && IsScoped(kind)
      modifies api
      ensures Sound(Elements(grown)) && NoDuplicates(grown) && api.released == old(api.released)
      ensures if ok then api.failures == old(api.failures) else api.failures > old(api.failures)
    {
      hide Accounted;
      ghost var live := api.live;
      var h := api.Acquire(kind);
      Borrowed(Fields(), live, Elements(scope), h);
      if h.None? {
        assert Held(h) == {} && live + {} == live && Elements(scope) + {} == Elements(scope);
        return false, scope;
      }
      ScopeGrows(scope, h.value, Fields(), live);
      return true, scope + [h.value];
    }

    /** The scoped owners of an ONNX build; when one fails, those before it are still in scope. */
    method OpenBuild() returns (ok: bool, scope: seq<Handle>)
      requires Sound({})
      modifies api
      ensures Sound(Elements(scope)) && NoDuplicates(scope) && api.released == old(api.released)
      ensures if ok then api.failures == old(api.failures) else api.failures > old(api.failures)
    {
      hide Accounted, Elements, NoDuplicates;
      EmptyScope();
      scope := [];
      ok, scope := Borrow(Builder, scope);
      if !ok {
        return;
      }
      ok, scope := Borrow(Network, scope);
      if !ok {
        return;
      }
      ok, scope := Borrow(Parser, scope);
      if !ok {
        return;
      }
      Returned(Fields(), api.live, Elements(scope));
      ok := api.Use(Elements(scope));
      if !ok {
        return;
      }
      ok, scope := Borrow(BuilderConfig, scope);
      if !ok {
        return;
      }
      ok, scope := Borrow(SerializedNetwork, scope);
    }

    method LoadOnnx(model: Model) returns (ok: bool, ghost stage: Stage)
      requires model.Valid() && Sound({}) && Fields() == NOTHING && inputName == "" && outputName == ""
      requires Whole()
      modifies this`runtime, this`engine, this`context, this`stream, this`deviceStart, this`deviceStop,
               this`inputDevice, this`outputDevice, this`inputHost, this`outputHost, this`inputName, this`outputName,
               this`inputBytes, this`outputBytes, this`metadata, api
      ensures Sound({}) && InOrder(Fields()) && old(api.released) <= api.released
      ensures Ended(ok, stage)
      ensures stage != Incomplete ==> Runnable(model) && Describes(model)
      ensures ok ==> api.failures == old(api.failures)
      ensures !ok ==> api.failures > old(api.failures) || !Runnable(model)
    {
      hide Accounted, Runnable, TensorRTEngine.Describes, TensorRTEngine.Prepared, Elements, NoDuplicates, Reversed,
           Wired, IsBound;
      NothingInOrder();
      stage := Incomplete;
      var scope;
      ok, scope := OpenBuild();
      if ok {
        ok, stage := LoadModel(model, Elements(scope));
      } else {
        ModelWired();
        EndsUnbound();
      }
      Returned(Fields(), api.live, Elements(scope));
      ScopeApart(scope);
      api.Unwind(scope);
    }

    method LoadSerializedEngine(file: File, model: Model) returns (ok: bool, ghost stage: Stage)
      requires model.Valid() && Sound({}) && Fields() == NOTHING && inputName == "" && outputName == ""
      requires Whole()
      modifies this`runtime, this`engine, this`context, this`stream, this`deviceStart, this`deviceStop,
               this`inputDevice, this`outputDevice, this`inputHost, this`outputHost, this`inputName, this`outputName,
               this`inputBytes, this`outputBytes, this`metadata, api
      ensures Sound({}) && InOrder(Fields()) && old(api.released) <= api.released
      ensures Ended(ok, stage)
      ensures stage != Incomplete ==> Runnable(model) && Describes(model)
      ensures ok ==> api.failures == old(api.failures)
      ensures !ok ==> api.failures > old(api.failures) || file != Contents || !Runnable(model)
      ensures ok ==> file == Contents
    {
      hide Accounted, Runnable, TensorRTEngine.Describes, TensorRTEngine.Prepared, TensorRTEngine.Ended;
      NothingInOrder();
      stage := Incomplete;
      if file != Contents {
        ModelWired();
        EndsUnbound();
        return false, stage;
      }
      ok, stage := LoadModel(model, {});
    }

    /**
     A load starts from nothing, whatever was loaded before; it succeeds only with every resource in
     place and bound, and after a failure the fields still account for all that is live. After a failure
     the handles an inference asks for are all there exactly when the load failed at the binding. A load of
     a model that can run, from a file that can be read, fails only when a foreign call does.
     */
    method Load(path: string, file: File, model: Model) returns (ok: bool, ghost stage: Stage)
      requires model.Valid() && Valid()
      modifies this, api
      ensures Valid() && !justInferred && timings == old(timings)
      ensures old(api.released) + old(ReleaseOrder(Fields())) <= api.released
      ensures ReleasedSafely(old(Fields()), api.released[|old(api.released)|..])
      ensures ok ==> api.failures <= old(api.failures) + |Listed(old(stream))|
      ensures ok ==> Runnable(model) && (IsOnnx(path) || file == Contents)
      ensures !ok && Runnable(model) && (IsOnnx(path) || file == Contents) ==> api.failures > old(api.failures)
      ensures loaded == ok && (ok <==> stage == Complete) && (Ready() <==> stage != Incomplete)
      ensures graphExecution.None? && (stage != Incomplete ==> Runnable(model) && Describes(model))
    {
      hide Accounted, Runnable, TensorRTEngine.Describes, ReleaseOrder, ReleasedSafely, Wired, IsBound, InOrder,
           IsOnnx, NoDuplicates;
      ghost var held, released := Fields(), api.released;
      DestroyResources();
      OnnxSuffix(path);
      if |path| >= 5 && path[|path| - 5..] == ".onnx" {
        ok, stage := LoadOnnx(model);
      } else {
        ok, stage := LoadSerializedEngine(file, model);
      }
      loaded := ok;
      Later(held, released, api.released);
    }

    /** Queues the execution of the context. */
    method EnqueueContext() returns (ok: bool)
      requires Operable() && context.Some? && stream.Some?
      modifies api`memory, api`failures
      ensures var launch := Launch(context.value, old(api.memory).bindings[context.value]);
        context.value in old(api.memory).bindings &&
        if api.capturing then api.memory == old(api.memory).(traced := if ok then Some(launch) else None)
        else Launched(old(api.memory), api.memory, api.kernel, launch, ok)
      ensures SameShape(old(api.memory), api.memory)
      ensures if ok then api.failures == old(api.failures) else api.failures > old(api.failures)
    {
      hide Accounted, Wired;
      HeldIsLive(Fields(), api.live, {}, Stream);
      HeldIsLive(Fields(), api.live, {}, ExecutionContext);
      TouchedLive(Fields(), api.live, {}, api.memory, inputBytes / FLOAT_BYTES, outputBytes / FLOAT_BYTES);
      ok := api.Enqueue(context.value, stream.value);
    }

    /** Everything is accounted for and wired up, whether a capture is on or not. */
    ghost predicate Operable()
      reads this, api
    {
      api.Valid() && Accounted(Fields(), api.live, {}) && Installed()
    }

    /** Work that kept the shape of what there is kept the wiring. */
    lemma Worked(before: Memory)
      requires SameShape(before, api.memory)
      requires Wired(Fields(), before, inputBytes / FLOAT_BYTES, outputBytes / FLOAT_BYTES)
      ensures Installed() && (IsBound(Fields(), api.memory) <==> IsBound(Fields(), before))
    {
      hide Wired, IsBound, SameShape;
      ShapeKeeps(Fields(), before, api.memory, inputBytes / FLOAT_BYTES, outputBytes / FLOAT_BYTES);
    }

    /** One capture: it is ended if it was started, and a graph that cannot be used is destroyed. */
    method CaptureGraph() returns (captured: Option<Handle>)
      requires Sound({}) && Installed() && context.Some? && stream.Some? && graphExecution.None?
      modifies api
      ensures api.Valid() && !api.capturing && api.live == old(api.live) + Held(captured)
      ensures Installed() && (IsBound(Fields(), api.memory) <==> old(IsBound(Fields(), api.memory)))
      ensures captured.Some? ==>
        && captured.value.kind == CapturedGraph && captured.value !in old(api.live)
        && captured.value in api.memory.graphs
        && context.value in api.memory.bindings
        && api.memory.graphs[captured.value] == Launch(context.value, api.memory.bindings[context.value])
      ensures if captured.Some? then api.failures == old(api.failures) else api.failures > old(api.failures)
    {
      hide Accounted, Elements, NoDuplicates, Wired, IsBound, Launched;
      HeldIsLive(Fields(), api.live, {}, Stream);
      ghost var before := api.memory;
      var primed := EnqueueContext();
      if primed {
        primed := api.Synchronize(stream.value);
      }
      Worked(before);
      if !primed {
        return None;
      }
      var begun := api.BeginCapture(stream.value);
      Worked(before);
      if !begun {
        return None;
      }
      var enqueued := EnqueueContext();
      Worked(before);
      ghost var traced := api.memory;
      var ended, graph := api.EndCapture(stream.value);
      NotedKeeps(Fields(), traced, graph, traced.traced, inputBytes / FLOAT_BYTES, outputBytes / FLOAT_BYTES);
      if !enqueued || !ended || graph.None? {
        api.ReleaseIfHeld(graph);
        return None;
      }
      return graph;
    }

    /**
     A graph is executable afterwards exactly on success, and launches the context on what it is bound
     to; a capture is always ended, its graph destroyed. With a context and a stream it fails only when a
     foreign call does.
     */
    method EnableCudaGraph() returns (ok: bool)
      requires Valid()
      modifies this`graphExecution, api
      ensures Valid() && ok == graphExecution.Some? && api.capturing == false
      ensures ok <==> old(graphExecution).Some? ||
                      (context.Some? && stream.Some? && api.failures == old(api.failures))
      ensures old(graphExecution).Some? ==> graphExecution == old(graphExecution) && api.released == old(api.released)
    {
      hide Accounted, Elements, NoDuplicates, Wired, IsBound;
      if graphExecution.Some? {
        return true;
      }
      if context.None? || stream.None? {
        return false;
      }
      ghost var live := api.live;
      var captured := CaptureGraph();
      if captured.None? {
        assert live + Held(captured) == live;
        return false;
      }
      KeepGraph(captured.value, live);
      return graphExecution.Some?;
    }

    /** The captured graph is made executable, if that can be done, and is destroyed. */
    method KeepGraph(captured: Handle, ghost live: set<Handle>)
      requires api.Valid() && !api.capturing && api.live == live + {captured} && captured !in live
      requires Accounted(Fields(), live, {}) && InOrder(Fields()) && Installed()
      requires graphExecution.None? && context.Some? && stream.Some?
      requires captured.kind == CapturedGraph && captured in api.memory.graphs
      requires context.value in api.memory.bindings
      requires api.memory.graphs[captured] == Launch(context.value, api.memory.bindings[context.value])
      modifies this`graphExecution, api
      ensures Sound({}) && InOrder(Fields()) && Installed()
      ensures IsBound(Fields(), api.memory) <==> old(IsBound(Fields(), api.memory))
      ensures if graphExecution.Some? then api.failures == old(api.failures) else api.failures > old(api.failures)
    {
      hide Accounted, Elements, NoDuplicates, Wired, IsBound, Noted;
      ghost var before, memory := api.live, api.memory;
      graphExecution := api.Instantiate(captured);
      GraphWired(Fields(), memory, graphExecution, memory.graphs[captured], inputBytes / FLOAT_BYTES,
                 outputBytes / FLOAT_BYTES);
      api.Release(captured);
      GraphTaken(Fields(), live, before, api.live, captured, graphExecution);
    }

    /** The tests before any device work: handles, pointers, the exact input size, room for the output. */
    predicate Accepts(hasInput: bool, inputElements: Size, hasOutput: bool, capacity: Size)
      reads this
    {
      && Ready()
      && hasInput && hasOutput && inputElements != 0
      && FloatBytes(inputElements) == inputBytes
      && outputBytes / FLOAT_BYTES <= capacity
    }

    /** The input goes to the pinned buffer, and from there to the device. */
    method StageInput(data: seq<Element>) returns (ok: bool)
      requires Operable() && Ready() && |data| == inputBytes / FLOAT_BYTES
      modifies api`memory, api`failures
      ensures SameShape(old(api.memory), api.memory)
      ensures ok ==> inputDevice.value in api.memory.contents && api.memory.contents[inputDevice.value] == data
      ensures if ok then api.failures == old(api.failures) else api.failures > old(api.failures)
    {
      hide Accounted;
      BuffersLive(Fields(), api.live, {});
      HeldIsLive(Fields(), api.live, {}, Stream);
      api.WriteHost(inputHost.value, data);
      ok := api.Copy(inputDevice.value, inputHost.value, inputBytes / FLOAT_BYTES, stream.value);
    }

    /** The graph is launched if there is one, and the context enqueued if there is none. */
    method LaunchWork() returns (ok: bool)
      requires Operable() && Ready() && !api.capturing
      modifies api`memory, api`failures
      ensures SameShape(old(api.memory), api.memory)
      ensures context.value in old(api.memory).bindings
      ensures Launched(old(api.memory), api.memory, api.kernel,
                       Launch(context.value, old(api.memory).bindings[context.value]), ok)
      ensures if ok then api.failures == old(api.failures) else api.failures > old(api.failures)
    {
      hide Accounted;
      if graphExecution.Some? {
        TouchedLive(Fields(), api.live, {}, api.memory, inputBytes / FLOAT_BYTES, outputBytes / FLOAT_BYTES);
        HeldIsLive(Fields(), api.live, {}, Kind.GraphExecution);
        HeldIsLive(Fields(), api.live, {}, ExecutionContext);
        HeldIsLive(Fields(), api.live, {}, Stream);
        ok := api.LaunchGraph(graphExecution.value, stream.value);
      } else {
        ok := EnqueueContext();
      }
    }

    /** The output comes back to the pinned buffer, and the stream is waited for. */
    method FetchOutput() returns (ok: bool)
      requires Operable() && Ready()
      modifies api`memory, api`failures
      ensures SameShape(old(api.memory), api.memory)
      ensures ok ==>
        && outputHost.value in api.memory.contents && outputDevice.value in old(api.memory).contents
        && api.memory.contents[outputHost.value] == old(api.memory).contents[outputDevice.value]
        && api.memory.idle
      ensures SameMarks(old(api.memory), api.memory)
      ensures if ok then api.failures == old(api.failures) else api.failures > old(api.failures)
    {
      hide Accounted;
      BuffersLive(Fields(), api.live, {});
      HeldIsLive(Fields(), api.live, {}, Stream);
      ok := api.Copy(outputHost.value, outputDevice.value, outputBytes / FLOAT_BYTES, stream.value);
      if !ok {
        return false;
      }
      ok := api.Synchronize(stream.value);
    }

    /** Marks the point of the stream that was reached, with one of the events. */
    method Record(event: Option<Handle>) returns (ok: bool)
      requires Operable() && Ready() && InOrder(Fields()) && event in {deviceStart, deviceStop}
      modifies api`memory, api`failures
      ensures event.Some?
      ensures var m := old(api.memory); api.memory == if ok then m.(marks := m.marks[event.value := m.clock]) else m
      ensures if ok then api.failures == old(api.failures) else api.failures > old(api.failures)
    {
      hide Accounted;
      GuardCoversEvents(Fields());
      AllLive(Fields(), api.live);
      ok := api.Record(event.value, stream.value);
    }

    /** The milliseconds between the two events. */
    method Elapsed() returns (ms: Option<real>)
      requires Operable() && Ready() && InOrder(Fields()) && deviceStart.Some? && deviceStop.Some?
      requires deviceStart.value in api.memory.marks && deviceStop.value in api.memory.marks && api.memory.idle
      modifies api`failures
      ensures ms.Some? ==> ms.value == api.memory.marks[deviceStop.value] - api.memory.marks[deviceStart.value]
      ensures if ms.Some? then api.failures == old(api.failures) else api.failures > old(api.failures)
    {
      hide Accounted;
      AllLive(Fields(), api.live);
      ms := api.Elapsed(deviceStart.value, deviceStop.value);
    }

    /** The launch between the two events. */
    method TimedLaunch() returns (ok: bool)
      requires Operable() && Ready() && InOrder(Fields()) && !api.capturing
      modifies api`memory, api`failures
      ensures SameShape(old(api.memory), api.memory)
      ensures context.value in old(api.memory).bindings
      ensures ok ==>
        && Launched(old(api.memory), api.memory.(marks := old(api.memory).marks), api.kernel,
                    Launch(context.value, old(api.memory).bindings[context.value]), true)
        && deviceStart.Some? && deviceStop.Some?
        && deviceStart.value in api.memory.marks && deviceStop.value in api.memory.marks
        && api.memory.marks[deviceStop.value] - api.memory.marks[deviceStart.value] == api.memory.lastLaunch
      ensures if ok then api.failures == old(api.failures) else api.failures > old(api.failures)
    {
      hide Accounted, Wired, InOrder;
      EventsDiffer();
      ghost var m := api.memory;
      ok := Record(deviceStart);
      Worked(m);
      if !ok {
        BoundContext();
        return false;
      }
      ok := LaunchWork();
      Worked(m);
      if ok {
        ok := Record(deviceStop);
      }
    }

    lemma EventsDiffer()
      requires Operable()
      ensures deviceStart.Some? ==> deviceStart != deviceStop
    {
      assert Slot(Fields(), StartEvent) == deviceStart && Slot(Fields(), StopEvent) == deviceStop;
    }

    lemma BoundContext()
      requires Operable() && Ready()
      ensures context.value in api.memory.bindings
    {
    }

    /**
     The device work of one inference, every step of which may fail. When both addresses are bound, the
     pinned output buffer holds the result of the data at the end. The time is that of the launch alone.
     */
    method RunOnDevice(data: seq<Element>) returns (ms: Option<real>)
      requires Operable() && Ready() && InOrder(Fields()) && !api.capturing && |data| == inputBytes / FLOAT_BYTES
      modifies api`memory, api`failures
      ensures SameShape(old(api.memory), api.memory)
      ensures ms.Some? ==> api.memory.idle && ms.value == api.memory.lastLaunch
      ensures ms.Some? && IsBound(Fields(), old(api.memory)) ==>
        && outputHost.value in api.memory.contents
        && api.memory.contents[outputHost.value] ==
           Computed(api.kernel, context.value, data, outputBytes / FLOAT_BYTES)
      ensures if ms.Some? then api.failures == old(api.failures) else api.failures > old(api.failures)
    {
      hide Accounted, Wired, InOrder, SameShape, Launched, IsBound;
      ghost var m := api.memory;
      var ok := StageInput(data);
      Worked(m);
      if !ok {
        return None;
      }
      ghost var staged := api.memory;
      ok := TimedLaunch();
      ghost var launched := api.memory;
      ShapeChain(m, staged, launched);
      Worked(m);
      if !ok {
        return None;
      }
      ok := FetchOutput();
      ShapeChain(m, launched, api.memory);
      Worked(m);
      if !ok {
        return None;
      }
      ms := Elapsed();
      if IsBound(Fields(), m) {
        Result(data, m, staged, launched.(marks := staged.marks));
      }
    }

    /** What the four steps of an inference on bound addresses come to. */
    lemma Result(data: seq<Element>, m: Memory, staged: Memory, launched: Memory)
      requires Wired(Fields(), m, inputBytes / FLOAT_BYTES, outputBytes / FLOAT_BYTES) && IsBound(Fields(), m)
      requires SameShape(m, staged) && Ready()
      requires inputDevice.value in staged.contents && staged.contents[inputDevice.value] == data
      requires context.value in staged.bindings
      requires Launched(staged, launched, api.kernel, Launch(context.value, staged.bindings[context.value]), true)
      ensures outputDevice.value in launched.contents
      ensures launched.contents[outputDevice.value] ==
              Computed(api.kernel, context.value, data, outputBytes / FLOAT_BYTES)
    {
    }

    /**
     An inference succeeds exactly when its arguments are accepted and no foreign call fails. Of an engine
     whose latest load succeeded it writes what the device computes from the input, all of it and nothing
     else, and shows the time of its own launch in microseconds; or it reports no output, leaves the buffer
     alone and shows no time at all. After a load that failed at the binding an inference may succeed as
     well, and then nothing is known of the output.
     */
    method InferInto(input: array?<Element>, inputElements: Size, output: array?<Element>, capacity: Size)
      returns (ok: bool, outputElements: Size)
      requires Valid()
      requires input != null ==> inputElements <= input.Length
      requires output != null ==> capacity <= output.Length
      modifies this`lastDeviceLatencyUs, this`timings, this`justInferred, api`memory, api`failures, output
      ensures Valid() && justInferred == ok
      ensures ok <==> Accepts(input != null, inputElements, output != null, capacity)
                      && api.failures == old(api.failures)
      ensures api.failures >= old(api.failures)
      ensures outputElements == if ok then outputBytes / FLOAT_BYTES else 0
      ensures ok ==> lastDeviceLatencyUs == Some(1000.0 * api.memory.lastLaunch)
      ensures ok ==> timings == old(timings) + [lastDeviceLatencyUs.value]
      ensures !ok ==> lastDeviceLatencyUs.None? && timings == old(timings)
      ensures !ok && output != null ==> output[..] == old(output[..])
      ensures ok ==> inputBytes / FLOAT_BYTES <= inputElements
      ensures ok ==> output[outputElements..] == old(output[outputElements..])
      ensures ok && loaded ==>
        output[..outputElements] ==
        Computed(api.kernel, context.value, old(input[..inputBytes / FLOAT_BYTES]), outputElements)
    {
      hide Accounted, InOrder, Wired, IsBound, Computed;
      lastDeviceLatencyUs := None;
      justInferred := false;
      outputElements := 0;
      if context.None? || stream.None? || inputDevice.None? || outputDevice.None? || inputHost.None? ||
         outputHost.None? || input == null || output == null || inputElements == 0 {
        return false, 0;
      }
      if FloatBytes(inputElements) != inputBytes {
        return false, 0;
      }
      var expected: Size := outputBytes / FLOAT_BYTES;
      if capacity < expected {
        return false, 0;
      }
      SizeCheckCovers(inputElements);
      var result;
      ok, result := Perform(input[..inputBytes / FLOAT_BYTES]);
      if !ok {
        return false, 0;
      }
      forall i | 0 <= i < expected {
        output[i] := result[i];
      }
      outputElements := expected;
    }

    /** The device work, and the time it took. */
    method Perform(data: seq<Element>) returns (ok: bool, result: seq<Element>)
      requires Valid() && Ready() && |data| == inputBytes / FLOAT_BYTES && !justInferred
      modifies this`lastDeviceLatencyUs, this`timings, this`justInferred, api`memory, api`failures
      ensures Valid() && justInferred == ok
      ensures ok ==> lastDeviceLatencyUs == Some(1000.0 * api.memory.lastLaunch)
      ensures ok ==> timings == old(timings) + [lastDeviceLatencyUs.value]
      ensures !ok ==> lastDeviceLatencyUs.None? && timings == old(timings)
      ensures if ok then api.failures == old(api.failures) else api.failures > old(api.failures)
      ensures ok ==> |result| == outputBytes / FLOAT_BYTES
      ensures ok && loaded ==> result == Computed(api.kernel, context.value, data, outputBytes / FLOAT_BYTES)
    {
      hide Accounted, InOrder, Wired, IsBound, SameShape;
      ghost var m := api.memory;
      result := [];
      var elapsedMs := RunOnDevice(data);
      Worked(m);
      ok := elapsedMs.Some?;
      if ok {
        result := TakeOutput();
        lastDeviceLatencyUs := Some(elapsedMs.value * 1000.0);
        justInferred := true;
        timings := timings + [elapsedMs.value * 1000.0];
      }
    }

    /** What the pinned output buffer holds. */
    method TakeOutput() returns (result: seq<Element>)
      requires Operable() && Ready() && api.memory.idle
      ensures outputHost.value in api.memory.contents
      ensures |result| == outputBytes / FLOAT_BYTES && result == api.memory.contents[outputHost.value]
    {
      hide Accounted;
      BuffersLive(Fields(), api.live, {});
      result := api.ReadHost(outputHost.value, outputBytes / FLOAT_BYTES);
    }

    method Destroy()
      requires Valid()
      modifies this, api
      ensures Valid() && Empty() && api.live == {}
      ensures api.released == old(api.released) + old(ReleaseOrder(Fields()))
      ensures ReleasedSafely(old(Fields()), api.released[|old(api.released)|..])
    {
      DestroyResources();
    }
  }

  // ---------------------------------------------------------------- whole lives

  datatype Call =
    | CallLoad(path: string, file: File, model: Model)
    | CallEnableGraph
    | CallInfer(elements: Size, capacity: Size)

  /**
   Any sequence of calls, with any pattern of failures, and destruction at its end: everything that
   was ever acquired was released exactly once, and no capture is left open.
   */
  method Live(calls: seq<Call>) returns (api: Api)
    requires forall i :: 0 <= i < |calls| && calls[i].CallLoad? ==> calls[i].model.Valid()
    ensures fresh(api) && api.live == {} && !api.capturing
    ensures api.acquired == Elements(api.released) && NoDuplicates(api.released)
  {
    hide Accounted, InOrder, NoDuplicates, Elements;
    api := new Api();
    var e := new TensorRTEngine(api);
    for i := 0 to |calls|
      invariant fresh(api) && fresh(e) && e.api == api && e.Valid()
    {
      match calls[i] {
        case CallLoad(path, file, model) =>
          var _, _ := e.Load(path, file, model);
        case CallEnableGraph =>
          var _ := e.EnableCudaGraph();
        case CallInfer(elements, capacity) =>
          var input := new Element[elements](_ => Number(0.0));
          var output := new Element[capacity](_ => Number(0.0));
          var _, _ := e.InferInto(input, elements, output, capacity);
      }
    }
    e.Destroy();
    NothingLeft(api);
  }

  lemma NothingLeft(api: Api)
    requires api.Valid() && api.live == {}
    ensures api.acquired == Elements(api.released) && NoDuplicates(api.released)
  {
  }

  /** What was released first decides about the order. */
  lemma Later(r: Resources, before: seq<Handle>, after: seq<Handle>)
    requires before + ReleaseOrder(r) <= after
    ensures ReleasedSafely(r, after[|before|..])
  {
    hide ReleasedSafely, ReleaseOrder;
    var more := after[|before| + |ReleaseOrder(r)|..];
    assert after[|before|..] == ReleaseOrder(r) + more;
    ReleaseOrderSafe(r, more);
  }

  ghost predicate IsOnnx(path: string) {
    exists stem :: path == stem + ".onnx"
  }

  lemma OnnxSuffix(path: string)
    ensures IsOnnx(path) <==> |path| >= 5 && path[|path| - 5..] == ".onnx"
  {
    if |path| >= 5 && path[|path| - 5..] == ".onnx" {
      assert path == path[..|path| - 5] + ".onnx";
    }
  }

  lemma ScopeApart(scope: seq<Handle>)
    requires forall h :: h in Elements(scope) ==> IsScoped(h.kind)
    ensures Unneeded(scope)
  {
    forall h, kind | h in scope
      ensures !RestsOn(kind, h.kind)
    {
      assert h in Elements(scope);
    }
  }

  lemma EmptyScope()
    ensures Elements([]) == {} && NoDuplicates([])
  {
  }

  lemma ScopeGrows(scope: seq<Handle>, h: Handle, r: Resources, live: set<Handle>)
    requires NoDuplicates(scope) && Accounted(r, live, Elements(scope)) && h !in live
    ensures NoDuplicates(scope + [h]) && Elements(scope + [h]) == Elements(scope) + {h}
  {
    forall g | g in scope
      ensures g != h
    {
      assert g in Elements(scope) && g in live;
    }
  }

  /** One named input, one named output, both float tensors of a fixed shape that fits. */
  predicate Runnable(model: Model) {
    var input, output := Chosen(Names(model.tensors, Input)), Chosen(Names(model.tensors, Output));
    && AtMostOne(Names(model.tensors, Input)) && AtMostOne(Names(model.tensors, Output))
    && input != "" && output != ""
    && model.isFloat(input) && model.isFloat(output)
    && HasVolume(model.dims(input)) && HasVolume(model.dims(output))
  }

  predicate HasVolume(dims: Dims) {
    dims.Valid() && dims.count > 0 && AllPositive(dims.Used()) && Product(dims.Used()) <= MAX_SIZE
  }

  /** The `i`th tensor is the only one of its mode. */
  ghost predicate IsOnly(tensors: seq<Tensor>, i: int, mode: Mode) {
    && 0 <= i < |tensors| && tensors[i].mode == mode
    && forall k :: 0 <= k < |tensors| && k != i ==> tensors[k].mode != mode
  }

  ghost predicate AllNamed(tensors: seq<Tensor>) {
    forall k :: 0 <= k < |tensors| ==> tensors[k].name.Some? && tensors[k].name.value != ""
  }

  lemma {:induction false} NamesNotEmpty(tensors: seq<Tensor>, mode: Mode)
    requires AllNamed(tensors)
    ensures forall w :: w in Names(tensors, mode) ==> w != ""
    decreases |tensors|
  {
    if tensors != [] {
      NamesNotEmpty(tensors[..|tensors| - 1], mode);
    }
  }

  lemma {:induction false} NoName(tensors: seq<Tensor>, mode: Mode)
    requires AllNamed(tensors)
    ensures Names(tensors, mode) == [] <==> forall k :: 0 <= k < |tensors| ==> tensors[k].mode != mode
    decreases |tensors|
  {
    if tensors != [] {
      var n := |tensors| - 1;
      NoName(tensors[..n], mode);
      assert forall k :: 0 <= k < n ==> tensors[..n][k] == tensors[k];
    }
  }

  /** The only tensor of a mode gives the only name. */
  lemma {:induction false} OneName(tensors: seq<Tensor>, i: int, mode: Mode)
    requires AllNamed(tensors) && IsOnly(tensors, i, mode)
    ensures Names(tensors, mode) == [tensors[i].name.value]
    decreases |tensors|
  {
    var n := |tensors| - 1;
    assert forall k :: 0 <= k < n ==> tensors[..n][k] == tensors[k];
    if i == n {
      NoName(tensors[..n], mode);
    } else {
      OneName(tensors[..n], i, mode);
    }
  }

  /** An only name is that of the only tensor of the mode. */
  lemma {:induction false} FindOnly(tensors: seq<Tensor>, mode: Mode) returns (i: int)
    requires AllNamed(tensors) && |Names(tensors, mode)| == 1
    ensures IsOnly(tensors, i, mode)
    decreases |tensors|
  {
    var n := |tensors| - 1;
    assert forall k :: 0 <= k < n ==> tensors[..n][k] == tensors[k];
    if tensors[n].mode == mode {
      NoName(tensors[..n], mode);
      i := n;
    } else {
      i := FindOnly(tensors[..n], mode);
    }
  }

  /**
   What a model has to be, if its tensors have names: one input and one output, both of floats, both of a
   fixed shape whose volume fits.
   */
  lemma RunnableExactly(model: Model)
    requires model.Valid() && AllNamed(model.tensors)
    ensures Runnable(model) <==>
      exists i, j :: IsOnly(model.tensors, i, Input) && IsOnly(model.tensors, j, Output)
                     && Suits(model, model.tensors[i].name.value) && Suits(model, model.tensors[j].name.value)
  {
    hide Runnable, Names, Suits;
    NamesNotEmpty(model.tensors, Input);
    NamesNotEmpty(model.tensors, Output);
    RunnableParts(model);
    if Runnable(model) {
      var i := FindOnly(model.tensors, Input);
      var j := FindOnly(model.tensors, Output);
      OneName(model.tensors, i, Input);
      OneName(model.tensors, j, Output);
    }
    if i, j :| IsOnly(model.tensors, i, Input) && IsOnly(model.tensors, j, Output)
               && Suits(model, model.tensors[i].name.value) && Suits(model, model.tensors[j].name.value) {
      OneName(model.tensors, i, Input);
      OneName(model.tensors, j, Output);
    }
  }

  ghost predicate Suits(model: Model, name: string) {
    model.isFloat(name) && HasVolume(model.dims(name))
  }

  lemma RunnableParts(model: Model)
    requires forall w :: w in Names(model.tensors, Input) + Names(model.tensors, Output) ==> w != ""
    ensures Runnable(model) <==>
      && |Names(model.tensors, Input)| == 1 && Suits(model, Names(model.tensors, Input)[0])
      && |Names(model.tensors, Output)| == 1 && Suits(model, Names(model.tensors, Output)[0])
  {
    hide Names, HasVolume;
    var input, output := Names(model.tensors, Input), Names(model.tensors, Output);
    if |input| > 1 {
      assert input[0] in input + output;
    }
    if |output| > 1 {
      assert output[0] in input + output;
    }
    if |input| == 1 {
      assert input[0] in input + output;
    }
    if |output| == 1 {
      assert output[0] in input + output;
    }
  }

  lemma {:induction false} NamesPrefix(tensors: seq<Tensor>, k: nat, mode: Mode)
    requires k <= |tensors|
    ensures Names(tensors[..k], mode) <= Names(tensors, mode)
    decreases |tensors|
  {
    if k < |tensors| {
      NamesPrefix(tensors[..|tensors| - 1], k, mode);
      assert tensors[..|tensors| - 1][..k] == tensors[..k];
    } else {
      assert tensors[..k] == tensors;
    }
  }

  /** A name after one that is not empty is one too many. */
  lemma SecondName(tensors: seq<Tensor>, i: nat, mode: Mode)
    requires i < |tensors| && tensors[i].name.Some? && tensors[i].mode == mode
    requires Chosen(Names(tensors[..i], mode)) != ""
    ensures !AtMostOne(Names(tensors, mode))
  {
    var before := Names(tensors[..i], mode);
    assert tensors[..i + 1][..i] == tensors[..i];
    NamesPrefix(tensors, i + 1, mode);
    assert Names(tensors[..i + 1], mode) == before + [tensors[i].name.value];
    assert Names(tensors, mode)[|before| - 1] == (before + [tensors[i].name.value])[|before| - 1] != "";
  }
}
