/**
 The "inter" channel: a mutex-guarded `Option<Vec<Msg>>` buffer shared by
 the run loop and every live handle through reference-counted `Arc`s,
 plus a condition variable. Handles append; the run loop takes the whole
 buffer at once. Its `refs` is the strong count of the buffer's `Arc`: one
 for the run loop and one per live handle.

 Each operation here is one critical section; the condition variable's
 wake-ups are modelled in `InterWake`.
 */
module InterQueue {
  import opened Actor

  datatype Queue<M> = Queue(buffer: Option<seq<M>>, refs: nat)

  /** The buffer is only ever `None` inside the run loop's critical section,
      and the run loop holds its own reference. */
  predicate Valid<M>(q: Queue<M>) {
    q.buffer.Some? && q.refs >= 1
  }

  /** The queue as the proxy constructor leaves it: an empty buffer, one
      reference for the run loop and one for the first handle. */
  function Start<M>(): Queue<M> {
    Queue(Some([]), 2)
  }

  /** A handle's send: appends to the buffer. A message sent while the buffer
      is taken (`None`) would be silently dropped; `Valid` rules that out. */
  function Send<M>(q: Queue<M>, m: M): (r: Queue<M>)
    ensures r.refs == q.refs
    ensures q.buffer.Some? ==> r.buffer == Some(q.buffer.value + [m])
    ensures q.buffer.None? ==> r == q
  {
    match q.buffer
    case Some(s) => q.(buffer := Some(s + [m]))
    case None => q
  }

  function CloneHandle<M>(q: Queue<M>): (r: Queue<M>)
    ensures r.buffer == q.buffer && r.refs == q.refs + 1
  {
    q.(refs := q.refs + 1)
  }

  /** A handle releasing its reference. The run loop's own reference is never
      released while it runs. */
  function Release<M>(q: Queue<M>): (r: Queue<M>)
    requires q.refs > 1
    ensures r.buffer == q.buffer && r.refs + 1 == q.refs
    ensures Valid(q) ==> Valid(r)
  {
    q.(refs := q.refs - 1)
  }

  /** What one pass of the run loop's `queuing` closure decides. */
  datatype Drained<M> =
    | Batch(msgs: seq<M>)   // the whole buffer, taken at once
    | Wait                  // empty, but some handle is alive: wait on the condvar
    | Closed                // empty, and only the run loop's reference is left

  /** One critical section of the run loop: takes the whole non-empty buffer
      and leaves an empty one, or decides to wait or to stop. */
  function Drain<M>(q: Queue<M>): (r: (Drained<M>, Queue<M>))
    requires Valid(q)
    ensures Valid(r.1) && r.1.refs == q.refs
    ensures r.0.Closed? <==> q.buffer.value == [] && q.refs <= 1
    ensures r.0.Wait? <==> q.buffer.value == [] && q.refs > 1
    ensures r.0.Batch? ==> r.0.msgs == q.buffer.value && r.0.msgs != [] && r.1.buffer == Some([])
    ensures !r.0.Batch? ==> r.1 == q
  {
    var s := q.buffer.value;
    if s == [] then
      if q.refs > 1 then (Wait, q) else (Closed, q)
    else
      (Batch(s), q.(buffer := Some([])))
  }

  // ---------------------------------------------------------------------
  // Sequences of operations

  datatype Op<M> = SendOp(m: M) | CloneOp | DropOp | DrainOp

  /** Sends, clones and drops come from a live handle, so need one. */
  predicate Enabled<M>(q: Queue<M>, op: Op<M>) {
    match op
    case DrainOp => true
    case _ => q.refs > 1
  }

  /** The history of a run: the final queue, the batches the run loop took,
      the messages the handles sent, and whether the run loop stopped. */
  datatype Log<M> = Log(queue: Queue<M>, batches: seq<seq<M>>, sent: seq<M>, closed: bool)

  function Apply<M>(l: Log<M>, op: Op<M>): Log<M>
    requires Valid(l.queue)
  {
    if l.closed || !Enabled(l.queue, op) then l
    else match op
      case SendOp(m) => l.(queue := Send(l.queue, m), sent := l.sent + [m])
      case CloneOp => l.(queue := CloneHandle(l.queue))
      case DropOp => l.(queue := Release(l.queue))
      case DrainOp =>
        var (d, q) := Drain(l.queue);
        match d
        case Batch(msgs) => l.(queue := q, batches := l.batches + [msgs])
        case Wait => l
        case Closed => l.(closed := true)
  }

  /** Applies `ops` in order from a valid queue; operations a stopped run
      loop or a queue with no live handle cannot see are skipped. */
  function Run<M>(q: Queue<M>, ops: seq<Op<M>>): (l: Log<M>)
    requires Valid(q)
    decreases |ops|
    ensures Valid(l.queue)
  {
    if ops == [] then Log(q, [], [], false)
    else
      var l := Run(q, ops[..|ops| - 1]);
      Apply(l, ops[|ops| - 1])
  }

  function Flatten<M>(batches: seq<seq<M>>): seq<M>
    decreases |batches|
  {
    if batches == [] then [] else Flatten(batches[..|batches| - 1]) + batches[|batches| - 1]
  }

  /** What a run from initial buffer `start` keeps true: the batches taken,
      followed by what is still buffered, are the initial buffer followed by
      every message sent, in order; every batch is non-empty; and the run
      loop has stopped only with an empty buffer and no live handle. */
  ghost predicate Conserves<M>(start: seq<M>, l: Log<M>)
    requires Valid(l.queue)
  {
    && Flatten(l.batches) + l.queue.buffer.value == start + l.sent
    && (forall i :: 0 <= i < |l.batches| ==> l.batches[i] != [])
    && (l.closed ==> l.queue.buffer.value == [] && l.queue.refs == 1)
  }

  lemma ApplyConserves<M>(start: seq<M>, l: Log<M>, op: Op<M>)
    requires Valid(l.queue) && Conserves(start, l)
    ensures Valid(Apply(l, op).queue) && Conserves(start, Apply(l, op))
  {
    var r := Apply(l, op);
    if !l.closed && Enabled(l.queue, op) {
      match op
      case SendOp(m) =>
        var f := Flatten(l.batches);
        var b := l.queue.buffer.value;
        assert r.queue.buffer.value == b + [m];
        assert f + (b + [m]) == (f + b) + [m];
        assert start + (l.sent + [m]) == (start + l.sent) + [m];
      case CloneOp =>
      case DropOp =>
      case DrainOp =>
        var (d, q1) := Drain(l.queue);
        if d.Batch? {
          assert r.batches[..|r.batches| - 1] == l.batches;
          assert Flatten(r.batches) == Flatten(l.batches) + d.msgs;
        }
    }
  }

  /** No message is lost, duplicated or reordered by any run. */
  lemma {:induction false} RunConservesMessages<M>(q: Queue<M>, ops: seq<Op<M>>)
    requires Valid(q)
    decreases |ops|
    ensures Conserves(q.buffer.value, Run(q, ops))
  {
    if ops != [] {
      RunConservesMessages(q, ops[..|ops| - 1]);
      ApplyConserves(q.buffer.value, Run(q, ops[..|ops| - 1]), ops[|ops| - 1]);
    } else {
      assert Flatten<M>([]) == [];
    }
  }
}
