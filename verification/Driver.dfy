/**
 The foreign runtime as its caller sees it: every acquisition may fail, and then yields nothing; a
 resource may only be used or released while it is live; a stream capture that was started stays on
 until it is ended; a buffer is never read or written out of bounds, and not read by the host while
 work is queued. Its preconditions turn every breach into an error of the caller.
 */
module Driver {
  import opened Results
  import opened Metrics
  import opened Device

  function Elements(s: seq<Handle>): set<Handle> {
    set h | h in s
  }

  ghost predicate NoDuplicates(s: seq<Handle>) {
    forall i, j :: 0 <= i < j < |s| ==> s[i] != s[j]
  }

  function Held(h: Option<Handle>): set<Handle> {
    if h.Some? then {h.value} else {}
  }

  function Listed(h: Option<Handle>): seq<Handle> {
    if h.Some? then [h.value] else []
  }

  /** The order in which scoped owners let go. */
  function Reversed(s: seq<Handle>): seq<Handle> {
    if s == [] then [] else [s[|s| - 1]] + Reversed(s[..|s| - 1])
  }

  lemma Split(s: seq<Handle>, k: nat)
    requires k < |s| && NoDuplicates(s)
    ensures Elements(s[k..]) == {s[k]} + Elements(s[k + 1..]) && s[k] !in Elements(s[k + 1..])
    ensures Reversed(s[..k + 1]) == [s[k]] + Reversed(s[..k])
  {
    assert s[k..] == [s[k]] + s[k + 1..];
    assert s[..k + 1][..k] == s[..k];
    var tail := s[k + 1..];
    forall i | 0 <= i < |tail|
      ensures tail[i] != s[k]
    {
      assert tail[i] == s[k + 1 + i];
    }
  }

  /** A context rests on its engine, and an engine on the runtime that made it. */
  predicate RestsOn(user: Kind, used: Kind) {
    (user.ExecutionContext? && used.CudaEngine?) || (user.CudaEngine? && used.InferRuntime?)
  }

  /** Nothing live rests on a resource of this kind. */
  ghost predicate Spares(live: set<Handle>, kind: Kind) {
    forall g :: g in live ==> !RestsOn(g.kind, kind)
  }

  /** Nothing can ever rest on these. */
  ghost predicate Unneeded(owned: seq<Handle>) {
    forall h, kind :: h in owned ==> !RestsOn(kind, h.kind)
  }

  lemma UnneededSpares(owned: seq<Handle>, h: Handle, live: set<Handle>)
    requires Unneeded(owned) && h in owned
    ensures Spares(live, h.kind)
  {
  }

  /** What a call adds to the count of failures. */
  function Failed(ok: bool): nat {
    if ok then 0 else 1
  }

  class Api {
    const kernel: Kernel

    ghost var live: set<Handle>
    ghost var acquired: set<Handle>
    ghost var released: seq<Handle>
    /** How many calls have answered with an error, or with nothing. */
    ghost var failures: nat
    var capturing: bool
    var next: nat
    var memory: Memory

    /** Everything acquired is either live or was released, once. */
    ghost predicate Valid()
      reads this`live, this`acquired, this`released, this`next
    {
      && acquired == live + Elements(released)
      && live !! Elements(released)
      && NoDuplicates(released)
      && forall h :: h in acquired ==> h.id < next
    }

    constructor ()
      ensures Valid() && live == {} && released == [] && !capturing
    {
      kernel := *;
      memory := Memory(map[], map[], map[], None, true, map[], 0.0, 0.0);
      live, acquired, released, failures, capturing, next := {}, {}, [], 0, false, 0;
    }

    method Acquire(kind: Kind) returns (h: Option<Handle>)
      requires Valid()
      modifies this
      ensures Valid() && live == old(live) + Held(h) && released == old(released) && capturing == old(capturing)
      ensures h.Some? ==> h.value.kind == kind && h.value !in old(live)
      ensures memory == old(memory) && failures == old(failures) + Failed(h.Some?)
    {
      var ok: bool := *;
      if !ok {
        failures := failures + 1;
        return None;
      }
      h := Some(Handle(kind, next));
      next := next + 1;
      live, acquired := live + Held(h), acquired + Held(h);
    }

    /** Nothing is released that something live rests on. */
    method Release(h: Handle)
      requires Valid() && h in live && Spares(live, h.kind)
      modifies this
      ensures Valid() && live == old(live) - {h} && released == old(released) + [h] && capturing == old(capturing)
      ensures memory == old(memory) && failures == old(failures)
    {
      live := live - {h};
      released := released + [h];
    }

    /** Releasing nothing is allowed and does nothing. */
    method ReleaseIfHeld(h: Option<Handle>)
      requires Valid() && Held(h) <= live
      requires h.Some? ==> Spares(live, h.value.kind)
      modifies this
      ensures Valid() && live == old(live) - Held(h) && released == old(released) + Listed(h)
      ensures capturing == old(capturing) && memory == old(memory) && failures == old(failures)
    {
      if h.Some? {
        Release(h.value);
      }
    }

    /** Scoped owners let go in reverse order of acquisition. */
    method Unwind(owned: seq<Handle>)
      requires Valid() && NoDuplicates(owned) && Elements(owned) <= live
      requires Unneeded(owned)
      modifies this
      ensures Valid() && live == old(live) - Elements(owned) && capturing == old(capturing)
      ensures released == old(released) + Reversed(owned) && memory == old(memory) && failures == old(failures)
    {
      hide Unneeded, Spares, NoDuplicates;
      var k := |owned|;
      assert owned[..k] == owned && owned[k..] == [];
      while k > 0
        invariant 0 <= k <= |owned| && Valid() && capturing == old(capturing) && memory == old(memory)
        invariant failures == old(failures)
        invariant live == old(live) - Elements(owned[k..])
        invariant released + Reversed(owned[..k]) == old(released) + Reversed(owned)
      {
        k := k - 1;
        Split(owned, k);
        UnneededSpares(owned, owned[k], live);
        Release(owned[k]);
      }
      assert owned[0..] == owned;
    }

    /** Any call that only works on live resources. */
    method Use(handles: set<Handle>) returns (ok: bool)
      requires Valid() && handles <= live
      modifies this`failures
      ensures failures == old(failures) + Failed(ok)
    {
      ok := *;
      failures := failures + Failed(ok);
    }

    /** A context comes with no tensor address set. */
    method AcquireContext() returns (h: Option<Handle>)
      requires Valid()
      modifies this
      ensures Valid() && live == old(live) + Held(h) && released == old(released) && capturing == old(capturing)
      ensures h.Some? ==> h.value.kind == ExecutionContext && h.value !in old(live)
      ensures memory ==
        if h.None? then old(memory) else old(memory).(bindings := old(memory).bindings[h.value := UNBOUND])
      ensures failures == old(failures) + Failed(h.Some?)
    {
      h := Acquire(ExecutionContext);
      if h.Some? {
        memory := memory.(bindings := memory.bindings[h.value := UNBOUND]);
      }
    }

    method AcquireBuffer(kind: Kind, n: nat) returns (h: Option<Handle>)
      requires Valid()
      modifies this
      ensures Valid() && live == old(live) + Held(h) && released == old(released) && capturing == old(capturing)
      ensures h.Some? ==> h.value.kind == kind && h.value !in old(live) && Allocated(old(memory), memory, h.value, n)
      ensures h.None? ==> memory == old(memory)
      ensures failures == old(failures) + Failed(h.Some?)
    {
      h := Acquire(kind);
      if h.Some? {
        var junk: int -> Element := *;
        memory := memory.(contents := memory.contents[h.value := seq(n, i => junk(i))]);
      }
    }

    /** Sets the address of one tensor. */
    method Bind(context: Handle, port: Port, buffer: Handle) returns (ok: bool)
      requires Valid() && {context, buffer} <= live && context in memory.bindings
      modifies this`memory, this`failures
      ensures var m := old(memory);
        memory == if ok then m.(bindings := m.bindings[context := Bound(m.bindings[context], port, buffer)]) else m
      ensures failures == old(failures) + Failed(ok)
    {
      ok := *;
      failures := failures + Failed(ok);
      if ok {
        memory := memory.(bindings := memory.bindings[context := Bound(memory.bindings[context], port, buffer)]);
      }
    }

    /** The host writes to the front of a buffer of its own. */
    method WriteHost(buffer: Handle, data: seq<Element>)
      requires Valid() && buffer in live && buffer in memory.contents && |data| <= |memory.contents[buffer]|
      modifies this`memory
      ensures SameBut(old(memory), memory, buffer) && SameMarks(old(memory), memory)
      ensures memory.contents[buffer] == data + old(memory.contents[buffer])[|data|..]
    {
      memory := Stored(memory, buffer, data + memory.contents[buffer][|data|..]);
    }

    /** The host reads the front of a buffer of its own, once nothing is queued any more. */
    method ReadHost(buffer: Handle, n: nat) returns (data: seq<Element>)
      requires Valid() && buffer in live && buffer in memory.contents && n <= |memory.contents[buffer]| && memory.idle
      ensures data == memory.contents[buffer][..n]
    {
      data := memory.contents[buffer][..n];
    }

    /** Queues a copy; a copy that fails may have written anything to its destination. */
    method Copy(destination: Handle, source: Handle, n: nat, stream: Handle) returns (ok: bool)
      requires Valid() && {destination, source, stream} <= live
      requires destination in memory.contents && source in memory.contents
      requires n <= |memory.contents[destination]| && n <= |memory.contents[source]|
      modifies this`memory, this`failures
      ensures SameBut(old(memory), memory, destination) && SameMarks(old(memory), memory)
      ensures failures == old(failures) + Failed(ok)
      ensures ok ==>
        memory.contents[destination] == old(memory.contents[source])[..n] + old(memory.contents[destination])[n..]
    {
      ok := *;
      failures := failures + Failed(ok);
      var junk: int -> Element := *;
      var time: real := *;
      var data := if ok then memory.contents[source][..n] + memory.contents[destination][n..]
                  else seq(|memory.contents[destination]|, i => junk(i));
      memory := Stored(memory, destination, data).(idle := false, clock := memory.clock + time);
    }

    /** Carries out a launch, in one of the ways `Launched` allows. */
    method Execute(launch: Launch) returns (ok: bool)
      modifies this`memory, this`failures
      ensures Launched(old(memory), memory, kernel, launch, ok)
      ensures failures == old(failures) + Failed(ok)
    {
      ok := *;
      failures := failures + Failed(ok);
      var time: real := *;
      var junk: (Handle, int) -> Element := *;
      var b := launch.binding;
      if b.input.Some? && b.output.Some? && b.input.value in memory.contents && b.output.value in memory.contents {
        var out, n := b.output.value, |memory.contents[b.output.value]|;
        var data := if ok then Computed(kernel, launch.context, memory.contents[b.input.value], n)
                    else seq(n, i => junk(out, i));
        memory := Stored(memory, out, data).(idle := false, clock := memory.clock + time, lastLaunch := time);
      } else {
        var all := map h | h in memory.contents :: seq(|memory.contents[h]|, i => junk(h, i));
        memory := memory.(contents := all, idle := false, clock := memory.clock + time, lastLaunch := time);
      }
    }

    /**
     Queues an execution of a context on the buffers it is bound to, or, while a capture is on, notes it
     down instead.
     */
    method Enqueue(context: Handle, stream: Handle) returns (ok: bool)
      requires Valid() && {context, stream} <= live && context in memory.bindings
      requires Touched(memory.bindings[context]) <= live
      modifies this`memory, this`failures
      ensures var launch := Launch(context, old(memory).bindings[context]);
        if capturing then memory == old(memory).(traced := if ok then Some(launch) else None)
        else Launched(old(memory), memory, kernel, launch, ok)
      ensures failures == old(failures) + Failed(ok)
    {
      var launch := Launch(context, memory.bindings[context]);
      if capturing {
        ok := *;
        failures := failures + Failed(ok);
        memory := memory.(traced := if ok then Some(launch) else None);
      } else {
        ok := Execute(launch);
      }
    }

    /** Queues an execution of what a graph holds. */
    method LaunchGraph(graph: Handle, stream: Handle) returns (ok: bool)
      requires Valid() && {graph, stream} <= live && graph in memory.graphs && !capturing
      requires Touched(memory.graphs[graph].binding) + {memory.graphs[graph].context} <= live
      modifies this`memory, this`failures
      ensures Launched(old(memory), memory, kernel, old(memory).graphs[graph], ok)
      ensures failures == old(failures) + Failed(ok)
    {
      ok := Execute(memory.graphs[graph]);
    }

    /** Waits for everything queued. */
    method Synchronize(stream: Handle) returns (ok: bool)
      requires Valid() && stream in live
      modifies this`memory, this`failures
      ensures memory == if ok then old(memory).(idle := true) else old(memory)
      ensures failures == old(failures) + Failed(ok)
    {
      ok := *;
      failures := failures + Failed(ok);
      if ok {
        memory := memory.(idle := true);
      }
    }

    /** Queues an event, which marks the time at which the stream comes to it. */
    method Record(event: Handle, stream: Handle) returns (ok: bool)
      requires Valid() && {event, stream} <= live
      modifies this`memory, this`failures
      ensures var m := old(memory); memory == if ok then m.(marks := m.marks[event := m.clock]) else m
      ensures failures == old(failures) + Failed(ok)
    {
      ok := *;
      failures := failures + Failed(ok);
      if ok {
        memory := memory.(marks := memory.marks[event := memory.clock]);
      }
    }

    /** The milliseconds from one event to another, once both are past. */
    method Elapsed(start: Handle, stop: Handle) returns (ms: Option<real>)
      requires Valid() && {start, stop} <= live && start in memory.marks && stop in memory.marks && memory.idle
      modifies this`failures
      ensures ms.Some? ==> ms.value == memory.marks[stop] - memory.marks[start]
      ensures failures == old(failures) + Failed(ms.Some?)
    {
      var ok: bool := *;
      failures := failures + Failed(ok);
      ms := if ok then Some(memory.marks[stop] - memory.marks[start]) else None;
    }

    method BeginCapture(stream: Handle) returns (ok: bool)
      requires Valid() && stream in live && !capturing
      modifies this`capturing, this`memory, this`failures
      ensures Valid() && capturing == ok && memory == old(memory).(traced := None)
      ensures failures == old(failures) + Failed(ok)
    {
      ok := *;
      failures := failures + Failed(ok);
      capturing := ok;
      memory := memory.(traced := None);
    }

    /** Ending a capture always ends it; a graph may come out of it whatever the status. */
    method EndCapture(stream: Handle) returns (ok: bool, graph: Option<Handle>)
      requires Valid() && stream in live && capturing
      modifies this
      ensures Valid() && !capturing && live == old(live) + Held(graph) && released == old(released)
      ensures graph.Some? ==> graph.value.kind == CapturedGraph && graph.value !in old(live)
      ensures memory == Noted(old(memory), graph, old(memory).traced)
      ensures if ok && graph.Some? then failures == old(failures) else failures > old(failures)
    {
      graph := Acquire(CapturedGraph);
      capturing := false;
      ok := *;
      failures := failures + Failed(ok);
      memory := Noted(memory, graph, memory.traced);
    }

    /** An executable graph launches what was captured. */
    method Instantiate(graph: Handle) returns (h: Option<Handle>)
      requires Valid() && graph in live && graph in memory.graphs
      modifies this
      ensures Valid() && live == old(live) + Held(h) && released == old(released) && capturing == old(capturing)
      ensures h.Some? ==> h.value.kind == Kind.GraphExecution && h.value !in old(live)
      ensures memory == Noted(old(memory), h, Some(old(memory).graphs[graph]))
      ensures failures == old(failures) + Failed(h.Some?)
    {
      h := Acquire(Kind.GraphExecution);
      memory := Noted(memory, h, Some(memory.graphs[graph]));
    }
  }
}
