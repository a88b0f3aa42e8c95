/** The `scan` reducer at the heart of `chunkedBackpressure`
    (src/operators/backpressure.ts). Source values, the DONE marker appended to
    the source and the IDLE signal fed back when a result stream finishes are
    folded over an accumulator `[data, bDone]`. The delegate that maps a chunk to
    a result stream is not interpreted: a result stream is identified by the
    chunk it was produced from, and each step reports the delegate call it makes
    and whether it completes the feedback channel `idle$`. */
module Backpressure {

  datatype Option<T> = None | Some(value: T)

  /** What the merged stream `merge(obj$, idle$)` delivers to the reducer. */
  datatype Event<T> = Value(v: T) | Idle | Done

  /** The `data` half of the accumulator: NOTHING (downstream idle), a
      non-empty buffer (downstream busy, items waiting), or the result stream
      `aDelegate(chunk)` just produced (downstream busy, nothing waiting). */
  datatype Data<T> = Nothing | Buffer(items: seq<T>) | Busy(chunk: seq<T>)

  /** The accumulator `[data, bDone]`. */
  datatype Acc<T> = Acc(data: Data<T>, done: bool)

  /** One reducer step: the new accumulator, the delegate call it made (if
      any) and whether it called `idle$.complete()`. */
  datatype Transition<T> = Transition(next: Acc<T>, invoke: Option<seq<T>>, closes: bool)

  /** The seed `[NOTHING, false]`. */
  function Init<T>(): (r: Acc<T>)
    ensures WellFormed(r) && !r.done
    ensures Emitted(r.data) == None && Pending(r.data) == []
  {
    Acc(Nothing, false)
  }

  /** `map(([data]) => data)` followed by `filter(isBusy)`: the result stream an
      accumulator passes on to `concatMap`, if any. */
  function Emitted<T>(d: Data<T>): Option<seq<T>> {
    if d.Busy? then Some(d.chunk) else None
  }

  /** The values waiting in the buffer. */
  function Pending<T>(d: Data<T>): seq<T> {
    if d.Buffer? then d.items else []
  }

  /** Buffers and chunks are never empty. */
  predicate WellFormed<T>(acc: Acc<T>) {
    (acc.data.Buffer? ==> |acc.data.items| > 0) &&
    (acc.data.Busy? ==> |acc.data.chunk| > 0)
  }

  /** The delegate calls of one step, as a list. */
  function Calls<T>(t: Transition<T>): seq<seq<T>> {
    if t.invoke.Some? then [t.invoke.value] else []
  }

  function Flatten<T>(chunks: seq<seq<T>>): seq<T> {
    if chunks == [] then [] else chunks[0] + Flatten(chunks[1..])
  }

  /** The source values among a list of events, in order. */
  function ValuesOf<T>(evs: seq<Event<T>>): seq<T> {
    if evs == [] then []
    else (if evs[0].Value? then [evs[0].v] else []) + ValuesOf(evs[1..])
  }

  /** The reducer of `chunkedBackpressure`. */
  function Step<T>(acc: Acc<T>, ev: Event<T>): (r: Transition<T>)
    // each accumulator that passes the busy filter is a fresh delegate result
    ensures r.invoke == Emitted(r.next.data)
    ensures acc.data.Busy? ==> !r.next.data.Busy?
    // the done flag is set by DONE and never reset
    ensures r.next.done == (acc.done || ev.Done?)
    // idle$ is completed only once the source is done and nothing is buffered
    ensures r.closes ==> r.next == Acc(Nothing, true)
    ensures WellFormed(acc) ==> WellFormed(r.next)
    ensures WellFormed(acc) && r.invoke.Some? ==> |r.invoke.value| > 0
    // no value is lost, duplicated or reordered
    ensures Pending(acc.data) + ValuesOf([ev]) == Flatten(Calls(r)) + Pending(r.next.data)
  {
    match ev
    case Idle =>
      if acc.data.Buffer? then
        Transition(Acc(Busy(acc.data.items), acc.done), Some(acc.data.items), false)
      else
        Transition(Acc(Nothing, acc.done), None, acc.done)
    case Done =>
      if acc.data.Buffer? then
        Transition(Acc(Busy(acc.data.items), true), Some(acc.data.items), false)
      else
        Transition(Acc(Nothing, true), None, acc.data.Nothing?)
    case Value(v) =>
      match acc.data
      case Buffer(items) => Transition(Acc(Buffer(items + [v]), acc.done), None, false)
      case Nothing => Transition(Acc(Busy([v]), acc.done), Some([v]), false)
      case Busy(_) => Transition(Acc(Buffer([v]), acc.done), None, false)
  }

  // ---------------------------------------------------------------------------
  // The reducer's branches, one lemma per rule.

  /** A value while downstream is idle calls the delegate with exactly `[v]`. */
  lemma ValueWhenIdleInvokes<T>(v: T, d: bool)
    ensures Step(Acc(Nothing, d), Value(v)) == Transition(Acc(Busy([v]), d), Some([v]), false)
  {
  }

  /** A value while busy with nothing waiting starts the buffer `[v]`. */
  lemma ValueWhenBusyStartsBuffer<T>(c: seq<T>, v: T, d: bool)
    ensures Step(Acc(Busy(c), d), Value(v)) == Transition(Acc(Buffer([v]), d), None, false)
  {
  }

  /** A value while buffering goes to the end of the buffer. */
  lemma ValueWhenBufferingAppends<T>(items: seq<T>, v: T, d: bool)
    ensures Step(Acc(Buffer(items), d), Value(v)) == Transition(Acc(Buffer(items + [v]), d), None, false)
  {
  }

  /** IDLE with a buffer hands the whole buffer to the delegate. */
  lemma IdleFlushesBuffer<T>(items: seq<T>, d: bool)
    ensures Step(Acc(Buffer(items), d), Idle) == Transition(Acc(Busy(items), d), Some(items), false)
  {
  }

  /** IDLE without a buffer returns to NOTHING and closes `idle$` exactly when
      the source is done. */
  lemma IdleWithoutBuffer<T>(acc: Acc<T>)
    requires !acc.data.Buffer?
    ensures Step(acc, Idle).next == Acc(Nothing, acc.done)
    ensures Step(acc, Idle).invoke == None
    ensures Step(acc, Idle).closes <==> acc.done
  {
  }

  /** DONE with a buffer flushes it and sets the done flag, without closing. */
  lemma DoneFlushesBuffer<T>(items: seq<T>, d: bool)
    ensures Step(Acc(Buffer(items), d), Done) == Transition(Acc(Busy(items), true), Some(items), false)
  {
  }

  /** DONE while downstream is idle closes `idle$` at once. */
  lemma DoneWhenIdleCloses<T>(d: bool)
    ensures Step<T>(Acc(Nothing, d), Done) == Transition(Acc(Nothing, true), None, true)
  {
  }

  /** DONE while busy with nothing waiting goes to NOTHING and leaves `idle$`
      open for the IDLE of the running result stream. */
  lemma DoneWhenBusyDefers<T>(c: seq<T>, d: bool)
    ensures Step(Acc(Busy(c), d), Done) == Transition(Acc(Nothing, true), None, false)
  {
  }

  // ---------------------------------------------------------------------------
  // Traces: the reducer folded over a list of events.

  /** The last accumulator, every delegate call in order, and whether `idle$`
      was completed along the way. */
  datatype Trace<T> = Trace(last: Acc<T>, calls: seq<seq<T>>, closed: bool)

  function Run<T>(acc: Acc<T>, evs: seq<Event<T>>): (t: Trace<T>)
    ensures acc.done ==> t.last.done
    ensures t.closed ==> t.last.done
    ensures WellFormed(acc) ==> WellFormed(t.last)
    ensures WellFormed(acc) ==> forall i :: 0 <= i < |t.calls| ==> |t.calls[i]| > 0
    decreases |evs|
  {
    if evs == [] then Trace(acc, [], false)
    else
      var s := Step(acc, evs[0]);
      var t := Run(s.next, evs[1..]);
      Trace(t.last, Calls(s) + t.calls, s.closes || t.closed)
  }

  /** What `map` and `filter(isBusy)` pass on to `concatMap` while the scan
      folds a list of events: the result stream of every accumulator that is
      busy, in order. */
  function Emissions<T>(acc: Acc<T>, evs: seq<Event<T>>): seq<seq<T>>
    decreases |evs|
  {
    if evs == [] then []
    else
      var next := Step(acc, evs[0]).next;
      (if Emitted(next.data).Some? then [Emitted(next.data).value] else []) + Emissions(next, evs[1..])
  }

  /** The busy filter lets through exactly the delegate calls, each once and in
      the order they were made: no accumulator is passed on twice and no call is
      missed. */
  lemma {:induction false} EmissionsAreCalls<T>(acc: Acc<T>, evs: seq<Event<T>>)
    ensures Emissions(acc, evs) == Run(acc, evs).calls
    decreases |evs|
  {
    if evs != [] {
      EmissionsAreCalls(Step(acc, evs[0]).next, evs[1..]);
    }
  }

  lemma {:induction false} FlattenAppend<T>(a: seq<seq<T>>, b: seq<seq<T>>)
    ensures Flatten(a + b) == Flatten(a) + Flatten(b)
    decreases |a|
  {
    if a == [] {
      assert a + b == b;
    } else {
      assert (a + b)[1..] == a[1..] + b;
      FlattenAppend(a[1..], b);
    }
  }

  lemma {:induction false} ValuesOfAppend<T>(a: seq<Event<T>>, b: seq<Event<T>>)
    ensures ValuesOf(a + b) == ValuesOf(a) + ValuesOf(b)
    decreases |a|
  {
    if a == [] {
      assert a + b == b;
    } else {
      var head := if a[0].Value? then [a[0].v] else [];
      assert (a + b)[0] == a[0];
      assert (a + b)[1..] == a[1..] + b;
      ValuesOfAppend(a[1..], b);
      calc {
        ValuesOf(a + b);
        head + ValuesOf(a[1..] + b);
        head + (ValuesOf(a[1..]) + ValuesOf(b));
        (head + ValuesOf(a[1..])) + ValuesOf(b);
      }
    }
  }

  /** Each source value lands in exactly one delegate chunk or is still in the
      buffer, and chunk after chunk they keep the order of arrival. */
  lemma {:induction false} RunConservesValues<T>(acc: Acc<T>, evs: seq<Event<T>>)
    ensures Flatten(Run(acc, evs).calls) + Pending(Run(acc, evs).last.data)
         == Pending(acc.data) + ValuesOf(evs)
    decreases |evs|
  {
    if evs != [] {
      var s := Step(acc, evs[0]);
      var t := Run(s.next, evs[1..]);
      assert Run(acc, evs).calls == Calls(s) + t.calls;
      assert Run(acc, evs).last == t.last;
      RunConservesValues(s.next, evs[1..]);
      FlattenAppend(Calls(s), t.calls);
      assert evs == [evs[0]] + evs[1..];
      ValuesOfAppend([evs[0]], evs[1..]);
      Regroup(Flatten(Calls(s)), Flatten(t.calls), Pending(t.last.data),
              Pending(s.next.data), ValuesOf(evs[1..]), Pending(acc.data) + ValuesOf([evs[0]]));
    }
  }

  /** Sequence bookkeeping for RunConservesValues. */
  lemma Regroup<T>(now: seq<T>, later: seq<T>, pend: seq<T>, mid: seq<T>, rest: seq<T>, before: seq<T>)
    requires later + pend == mid + rest
    requires before == now + mid
    ensures now + later + pend == before + rest
  {
    calc {
      now + later + pend;
      now + (later + pend);
      now + (mid + rest);
      before + rest;
    }
  }

  /** Whether a list of events holds the DONE marker. */
  predicate HasDone<T>(evs: seq<Event<T>>) {
    exists i :: 0 <= i < |evs| && evs[i].Done?
  }

  /** The done flag is true after a trace exactly when it was true before or
      the trace delivered DONE. */
  lemma {:induction false} RunDoneFlag<T>(acc: Acc<T>, evs: seq<Event<T>>)
    ensures Run(acc, evs).last.done <==> acc.done || HasDone(evs)
    decreases |evs|
  {
    if evs != [] {
      var s := Step(acc, evs[0]);
      RunDoneFlag(s.next, evs[1..]);
      if HasDone(evs[1..]) {
        var i :| 0 <= i < |evs[1..]| && evs[1..][i].Done?;
        assert evs[i + 1].Done?;
      }
      if HasDone(evs) && !evs[0].Done? {
        var i :| 0 <= i < |evs| && evs[i].Done?;
        assert evs[1..][i - 1].Done?;
      }
    }
  }

  /** Running two event lists one after the other. */
  lemma {:induction false} RunAppend<T>(acc: Acc<T>, a: seq<Event<T>>, b: seq<Event<T>>)
    ensures Run(acc, a + b).last == Run(Run(acc, a).last, b).last
    ensures Run(acc, a + b).calls == Run(acc, a).calls + Run(Run(acc, a).last, b).calls
    ensures Run(acc, a + b).closed == (Run(acc, a).closed || Run(Run(acc, a).last, b).closed)
    decreases |a|
  {
    if a == [] {
      assert a + b == b;
    } else {
      assert (a + b)[1..] == a[1..] + b;
      RunAppend(Step(acc, a[0]).next, a[1..], b);
    }
  }

  /** The events of a list of source values. */
  function ValueEvents<T>(vs: seq<T>): (evs: seq<Event<T>>)
    ensures |evs| == |vs|
    ensures forall i :: 0 <= i < |vs| ==> evs[i] == Value(vs[i])
  {
    if vs == [] then [] else [Value(vs[0])] + ValueEvents(vs[1..])
  }

  /** While a buffer exists, further values only grow it. */
  lemma {:induction false} BufferAbsorbsValues<T>(items: seq<T>, vs: seq<T>, d: bool)
    ensures Run(Acc(Buffer(items), d), ValueEvents(vs)) == Trace(Acc(Buffer(items + vs), d), [], false)
    decreases |vs|
  {
    if vs == [] {
      assert items + vs == items;
    } else {
      assert ValueEvents(vs)[1..] == ValueEvents(vs[1..]);
      BufferAbsorbsValues(items + [vs[0]], vs[1..], d);
      assert items + [vs[0]] + vs[1..] == items + vs;
    }
  }

  /** All values arriving while one result stream runs reach the delegate as
      one chunk, in arrival order, when that stream finishes. */
  lemma BurstBecomesOneChunk<T>(c: seq<T>, vs: seq<T>, d: bool)
    requires vs != []
    ensures Run(Acc(Busy(c), d), ValueEvents(vs) + [Idle]) == Trace(Acc(Busy(vs), d), [vs], false)
  {
    var start := Acc(Busy(c), d);
    var first := [Value(vs[0])];
    assert ValueEvents(vs) == first + ValueEvents(vs[1..]);
    assert Run(start, first) == Trace(Acc(Buffer([vs[0]]), d), [], false);
    BufferAbsorbsValues([vs[0]], vs[1..], d);
    assert [vs[0]] + vs[1..] == vs;
    RunAppend(start, first, ValueEvents(vs[1..]));
    RunAppend(start, ValueEvents(vs), [Idle]);
    assert Run(Acc(Buffer(vs), d), [Idle]) == Trace(Acc(Busy(vs), d), [vs], false);
  }

  /** An empty source closes `idle$` at once and never calls the delegate. */
  lemma EmptySourceCloses<T>()
    ensures Run(Init<T>(), [Done]) == Trace(Acc(Nothing, true), [], true)
  {
  }
}

/** The marble test of src/operators/backpressure.spec.ts, for any source
    values: `x[k]` is the value the source emits at frame k, and the result
    stream of every delegate call finishes four frames after it starts. On a
    frame where a value and an IDLE meet, the value comes first. The eight
    delegate calls start at frames 0, 4, 8, 12, 16, 20, 24 and 29, and `idle$`
    closes when the last one finishes. */
module BackpressureMarbles {
  import opened Backpressure

  function MarbleEvents<T>(x: seq<T>): seq<Event<T>>
    requires |x| >= 30
  {
    [Value(x[0]), Value(x[1]), Idle, Value(x[5]), Value(x[6]), Value(x[7]), Value(x[8]), Idle,
     Value(x[9]), Value(x[10]), Value(x[12]), Idle, Value(x[14]), Value(x[16]), Idle,
     Value(x[18]), Value(x[20]), Idle, Value(x[21]), Value(x[22]), Idle, Idle,
     Value(x[29]), Done, Idle]
  }

  /** A burst of values behind a running result stream, then its IDLE. */
  lemma Burst<T>(prev: seq<T>, vs: seq<T>, seg: seq<Event<T>>)
    requires vs != [] && |seg| == |vs| + 1 && seg[|vs|] == Idle
    requires forall i :: 0 <= i < |vs| ==> seg[i] == Value(vs[i])
    ensures Run(Acc(Busy(prev), false), seg) == Trace(Acc(Busy(vs), false), [vs], false)
  {
    assert seg == ValueEvents(vs) + [Idle];
    BurstBecomesOneChunk(prev, vs, false);
  }

  /** RunAppend, with the two halves' traces given. */
  lemma Compose<T>(acc: Acc<T>, x: seq<Event<T>>, y: seq<Event<T>>, cx: seq<seq<T>>, cy: seq<seq<T>>,
                   last: Acc<T>, closedX: bool, closedY: bool)
    requires Run(acc, x).calls == cx && Run(acc, x).closed == closedX
    requires Run(Run(acc, x).last, y) == Trace(last, cy, closedY)
    ensures Run(acc, x + y) == Trace(last, cx + cy, closedX || closedY)
  {
    RunAppend(acc, x, y);
  }

  /** Seven consecutive segments of a trace, each from where the last ended. */
  lemma Chain<T>(s0: Acc<T>, a: seq<Event<T>>, b: seq<Event<T>>, c: seq<Event<T>>, d: seq<Event<T>>,
                 e: seq<Event<T>>, f: seq<Event<T>>, g: seq<Event<T>>,
                 s1: Acc<T>, s2: Acc<T>, s3: Acc<T>, s4: Acc<T>, s5: Acc<T>, s6: Acc<T>, s7: Acc<T>,
                 ca: seq<seq<T>>, cb: seq<seq<T>>, cc: seq<seq<T>>, cd: seq<seq<T>>,
                 ce: seq<seq<T>>, cf: seq<seq<T>>, cg: seq<seq<T>>)
    requires Run(s0, a) == Trace(s1, ca, false) && Run(s1, b) == Trace(s2, cb, false)
    requires Run(s2, c) == Trace(s3, cc, false) && Run(s3, d) == Trace(s4, cd, false)
    requires Run(s4, e) == Trace(s5, ce, false) && Run(s5, f) == Trace(s6, cf, false)
    requires Run(s6, g) == Trace(s7, cg, true)
    ensures Run(s0, a + b + c + d + e + f + g) == Trace(s7, ca + cb + cc + cd + ce + cf + cg, true)
  {
    Compose(s0, a, b, ca, cb, s2, false, false);
    Compose(s0, a + b, c, ca + cb, cc, s3, false, false);
    Compose(s0, a + b + c, d, ca + cb + cc, cd, s4, false, false);
    Compose(s0, a + b + c + d, e, ca + cb + cc + cd, ce, s5, false, false);
    Compose(s0, a + b + c + d + e, f, ca + cb + cc + cd + ce, cf, s6, false, false);
    Compose(s0, a + b + c + d + e + f, g, ca + cb + cc + cd + ce + cf, cg, s7, false, true);
  }

  lemma MarbleTrace<T>(x: seq<T>)
    requires |x| >= 30
    ensures Run(Init(), MarbleEvents(x))
         == Trace(Acc(Nothing, true),
                  [[x[0]], [x[1]], [x[5], x[6], x[7], x[8]], [x[9], x[10], x[12]],
                   [x[14], x[16]], [x[18], x[20]], [x[21], x[22]], [x[29]]],
                  true)
  {
    var a: seq<Event<T>> := [Value(x[0]), Value(x[1]), Idle];
    var b: seq<Event<T>> := [Value(x[5]), Value(x[6]), Value(x[7]), Value(x[8]), Idle];
    var c: seq<Event<T>> := [Value(x[9]), Value(x[10]), Value(x[12]), Idle];
    var d: seq<Event<T>> := [Value(x[14]), Value(x[16]), Idle];
    var e: seq<Event<T>> := [Value(x[18]), Value(x[20]), Idle];
    var f: seq<Event<T>> := [Value(x[21]), Value(x[22]), Idle];
    var g: seq<Event<T>> := [Idle, Value(x[29]), Done, Idle];
    assert MarbleEvents(x) == a + b + c + d + e + f + g;
    var c1, c2, c3, c4 := [x[5], x[6], x[7], x[8]], [x[9], x[10], x[12]], [x[14], x[16]], [x[18], x[20]];
    var c5, c6 := [x[21], x[22]], [x[29]];
    OpeningSegment(x[0], x[1]);
    Burst([x[1]], c1, b);
    Burst(c1, c2, c);
    Burst(c2, c3, d);
    Burst(c3, c4, e);
    Burst(c4, c5, f);
    ClosingSegment(c5, x[29]);
    Chain(Init(), a, b, c, d, e, f, g,
          Acc(Busy([x[1]]), false), Acc(Busy(c1), false), Acc(Busy(c2), false), Acc(Busy(c3), false),
          Acc(Busy(c4), false), Acc(Busy(c5), false), Acc(Nothing, true),
          [[x[0]], [x[1]]], [c1], [c2], [c3], [c4], [c5], [c6]);
    Concatenated([x[0]], [x[1]], c1, c2, c3, c4, c5, c6);
  }

  lemma Concatenated<T>(u0: seq<T>, u1: seq<T>, u2: seq<T>, u3: seq<T>, u4: seq<T>, u5: seq<T>, u6: seq<T>, u7: seq<T>)
    ensures [u0, u1] + [u2] + [u3] + [u4] + [u5] + [u6] + [u7] == [u0, u1, u2, u3, u4, u5, u6, u7]
  {
  }

  /** Frames 0 to 4: the first value is handed over alone, the second waits. */
  lemma OpeningSegment<T>(x0: T, x1: T)
    ensures Run(Init(), [Value(x0), Value(x1), Idle]) == Trace(Acc(Busy([x1]), false), [[x0], [x1]], false)
  {
    var evs := [Value(x0), Value(x1), Idle];
    assert evs[1..] == [Value(x1), Idle];
    assert evs[1..][1..] == [Idle];
    assert Run(Acc(Buffer([x1]), false), [Idle]) == Trace(Acc(Busy([x1]), false), [[x1]], false);
    assert Run(Acc(Busy([x0]), false), [Value(x1), Idle]) == Trace(Acc(Busy([x1]), false), [[x1]], false);
  }

  /** Frames 24 to 33: downstream goes idle, one last value, then DONE while
      busy, so `idle$` closes at the IDLE of the last result stream. */
  lemma ClosingSegment<T>(c: seq<T>, x29: T)
    ensures Run(Acc(Busy(c), false), [Idle, Value(x29), Done, Idle]) == Trace(Acc(Nothing, true), [[x29]], true)
  {
    var evs: seq<Event<T>> := [Idle, Value(x29), Done, Idle];
    assert evs[1..] == [Value(x29), Done, Idle];
    assert evs[1..][1..] == [Done, Idle];
    assert evs[1..][1..][1..] == [Idle];
    assert Run<T>(Acc(Nothing, true), [Idle]) == Trace(Acc(Nothing, true), [], true);
    assert Run(Acc(Busy([x29]), false), [Done, Idle]) == Trace(Acc(Nothing, true), [], true);
    assert Run(Acc(Nothing, false), [Value(x29), Done, Idle]) == Trace(Acc(Nothing, true), [[x29]], true);
  }
}
