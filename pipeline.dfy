/** The subscription-time state of `chunkedBackpressure`
    (src/operators/backpressure.ts:43-148): the scan accumulator, whose buffer
    is a JavaScript array grown in place by `arrayPush`; the queue of result
    streams that `concatMap` has received and not yet seen finish (the head is
    the one subscribed); and whether `obj$` (the source followed by DONE) and
    the feedback subject `idle$` are still open. Each event method is one event of
    `merge(obj$, idle$)` and applies the reducer `Backpressure.Step` to it. */
module Pipeline {
  import opened Backpressure
  import Utils

  /** The `data` half of the accumulator as the program holds it: the buffer
      is an array object that later values are pushed onto. */
  datatype Slot<T> = Empty | Buffered(buf: Utils.JsArray<T>) | InFlight(chunk: seq<T>)

  class Chunked<T> {
    var slot: Slot<T>
    var done: bool
    /** `idle$` has not been completed. */
    var idleOpen: bool
    /** `obj$` has not delivered DONE. */
    var sourceOpen: bool
    /** Chunks handed to `concatMap` whose result stream has not finished; the
        head's result stream is the one subscribed. */
    var queue: seq<seq<T>>
    /** Every source value received so far. */
    ghost var received: seq<T>
    /** Every chunk given to the delegate so far. */
    ghost var calls: seq<seq<T>>

    function BufferObjects(): set<object>
      reads this
    {
      if slot.Buffered? then {slot.buf} else {}
    }

    /** The accumulator `[data, bDone]` this state stands for. */
    function State(): Acc<T>
      reads this, BufferObjects()
    {
      match slot
      case Empty => Acc(Nothing, done)
      case Buffered(buf) => Acc(Buffer(buf.elems), done)
      case InFlight(chunk) => Acc(Busy(chunk), done)
    }

    ghost predicate Valid()
      reads this, BufferObjects()
    {
      WellFormed(State()) &&
      sourceOpen == !done &&
      // idle$ is completed only after DONE, and then the reducer stays at NOTHING
      (!idleOpen ==> done && slot.Empty?) &&
      // a buffer waits behind exactly one running result stream
      (slot.Buffered? ==> !done && |queue| == 1) &&
      // the stream just produced is the last queued; a second one is queued
      // only by the DONE-with-buffer branch
      (slot.InFlight? ==> |queue| == (if done then 2 else 1) && queue[|queue| - 1] == slot.chunk) &&
      (slot.Empty? && !done ==> queue == []) &&
      (slot.Empty? && done ==> |queue| <= 1 && (queue == [] ==> !idleOpen)) &&
      // every value is in exactly one chunk or in the buffer, in arrival order
      Flatten(calls) + Pending(State().data) == received &&
      (forall i :: 0 <= i < |calls| ==> |calls[i]| > 0) &&
      |queue| <= |calls| && queue == calls[|calls| - |queue|..]
    }

    /** Subscribing: the seed `[NOTHING, false]`, both inputs open, no work. */
    constructor ()
      ensures Valid()
      ensures State() == Init()
      ensures idleOpen && sourceOpen && queue == []
      ensures received == [] && calls == []
    {
      slot := Empty;
      done := false;
      idleOpen := true;
      sourceOpen := true;
      queue := [];
      received := [];
      calls := [];
    }

    /** A source value arrives. */
    method OnValue(v: T)
      requires Valid() && sourceOpen
      modifies this, BufferObjects()
      ensures Valid()
      ensures State() == Step(old(State()), Value(v)).next
      ensures queue == old(queue) + Calls(Step(old(State()), Value(v)))
      ensures calls == old(calls) + Calls(Step(old(State()), Value(v)))
      ensures idleOpen == old(idleOpen) && sourceOpen
      ensures received == old(received) + [v]
      // arrayPush keeps the buffer object; a new buffer is a fresh array
      ensures old(slot).Buffered? ==> slot.Buffered? && slot.buf == old(slot).buf
      ensures old(slot).InFlight? ==> slot.Buffered? && fresh(slot.buf)
    {
      match slot {
      case Buffered(buf) =>
        var same := Utils.ArrayPush(v, buf);
        assert buf.elems == old(buf.elems) + [v];
        slot := Buffered(same);
      case Empty =>
        slot := InFlight([v]);
        queue := queue + [[v]];
        calls := calls + [[v]];
      case InFlight(_) =>
        var arr := new Utils.JsArray([v]);
        slot := Buffered(arr);
      }
      received := received + [v];
      FlattenAppend(old(calls), Calls(Step(old(State()), Value(v))));
    }

    /** The source completes, so `obj$` delivers DONE. */
    method OnSourceDone()
      requires Valid() && sourceOpen
      modifies this
      ensures Valid()
      ensures State() == Step(old(State()), Done).next
      ensures queue == old(queue) + Calls(Step(old(State()), Done))
      ensures calls == old(calls) + Calls(Step(old(State()), Done))
      ensures idleOpen == (old(idleOpen) && !Step(old(State()), Done).closes)
      ensures !sourceOpen && received == old(received)
    {
      match slot {
      case Buffered(buf) =>
        var chunk := buf.elems;
        slot := InFlight(chunk);
        queue := queue + [chunk];
        calls := calls + [chunk];
      case Empty =>
        idleOpen := false;
      case InFlight(_) =>
        slot := Empty;
      }
      done := true;
      sourceOpen := false;
      FlattenAppend(old(calls), Calls(Step(old(State()), Done)));
    }

    /** The subscribed result stream (the head of the queue) finishes; its
        `finalize` sends IDLE, which is dropped once `idle$` is completed. */
    method OnResultComplete()
      requires Valid() && queue != []
      modifies this
      ensures Valid()
      ensures sourceOpen == old(sourceOpen) && received == old(received)
      ensures old(idleOpen) ==>
        var t := Step(old(State()), Idle);
        State() == t.next && queue == old(queue)[1..] + Calls(t) &&
        calls == old(calls) + Calls(t) && idleOpen == !t.closes
      ensures !old(idleOpen) ==>
        State() == old(State()) && queue == old(queue)[1..] && calls == old(calls) && !idleOpen
    {
      queue := queue[1..];
      if idleOpen {
        match slot {
        case Buffered(buf) =>
          var chunk := buf.elems;
          slot := InFlight(chunk);
          queue := queue + [chunk];
          calls := calls + [chunk];
        case Empty =>
          if done {
            idleOpen := false;
          }
        case InFlight(_) =>
          slot := Empty;
          if done {
            idleOpen := false;
          }
        }
        FlattenAppend(old(calls), Calls(Step(old(State()), Idle)));
      }
    }

    /** Whether the combined stream has completed: `merge` completes once both
        `obj$` and `idle$` have, and `concatMap` once its queue is drained.
        This happens exactly when the source is done and every result stream
        has finished, and by then every value has reached the delegate. */
    method IsComplete() returns (c: bool)
      requires Valid()
      ensures c <==> !sourceOpen && queue == []
      ensures c ==> Flatten(calls) == received
    {
      c := !sourceOpen && !idleOpen && queue == [];
    }

    /** The chunk whose result stream `concatMap` has subscribed, if any. At
        most two result streams are ever queued, and two only after DONE. */
    method Active() returns (r: Option<seq<T>>)
      requires Valid()
      ensures r.Some? <==> queue != []
      ensures r.Some? ==> |r.value| > 0 && r.value == queue[0]
      ensures |queue| <= 2 && (|queue| == 2 ==> !sourceOpen)
    {
      r := if queue == [] then None else Some(queue[0]);
    }
  }
}
