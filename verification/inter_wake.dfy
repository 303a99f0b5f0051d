/**
 The wake-up protocol of the "inter" channel, as a state machine over the
 atomic steps of the run loop and of the live handles. The run loop checks
 the queue under the lock (`InterQueue.Drain`); when it decides to wait it
 sleeps on the condition variable until a `notify_one` arrives. A handle's
 send pushes under the lock and then notifies. A handle's drop notifies and
 releases its reference to the queue, in two separate steps.

 Each action is atomic. `Check` is the run loop's whole critical section,
 from taking the lock to going to sleep, which `Condvar::wait` makes atomic
 for every step taken under the same lock. A send pushes under the lock and
 then notifies, so it fits this model.

 In the generated code the Drop impl body runs before the handle's fields
 are dropped, so the notification comes first and the reference is released
 after it (`NotifyThenRelease`). If the run loop re-checks in between, it
 still counts that handle, waits again, and is never woken: it hangs with no
 live handle left. The corrected order (`ReleaseThenNotify`) gives up the
 handle's claim inside the queue's critical section and notifies after it,
 as a send does; that order cannot hang.
 */
module InterWake {
  import opened Actor
  import opened InterQueue

  /** The run loop: about to check the queue, asleep on the condvar, or
      returned from `play`. */
  datatype Consumer = Checking | Waiting | Exited

  datatype DropOrder = NotifyThenRelease | ReleaseThenNotify

  datatype State<M> = State(
    queue: Queue<M>,
    consumer: Consumer,
    handles: nat,     // live handles not yet dropping
    owed: nat,        // notifications some handle will still send
    unreleased: nat)  // dropped handles whose reference is not yet released

  datatype Action<M> =
    | Push(m: M)   // a handle's send, under the lock
    | Notify       // a handle's owed notify_one
    | CloneH       // a handle is cloned
    | BeginDrop    // a handle's drop starts
    | ReleaseRef   // a dropped handle's reference to the queue is released
    | Check        // the run loop's critical section

  function Init<M>(): State<M> {
    State(Start(), Checking, 1, 0, 0)
  }

  predicate Enabled<M>(s: State<M>, a: Action<M>) {
    match a
    case Push(_) => s.handles > 0
    case Notify => s.owed > 0
    case CloneH => s.handles > 0
    case BeginDrop => s.handles > 0
    case ReleaseRef => s.unreleased > 0
    case Check => s.consumer == Checking
  }

  /** `notify_one`: wakes the run loop if it is asleep, and is lost
      otherwise. */
  function Wake(c: Consumer): Consumer {
    if c == Waiting then Checking else c
  }

  ghost predicate Sound<M>(s: State<M>) {
    Valid(s.queue) && s.queue.refs == 1 + s.handles + s.unreleased
  }

  function Step<M>(s: State<M>, a: Action<M>, order: DropOrder): (r: State<M>)
    requires Sound(s) && Enabled(s, a)
    ensures Sound(r)
  {
    match a
    case Push(m) => s.(queue := Send(s.queue, m), owed := s.owed + 1)
    case Notify => s.(owed := s.owed - 1, consumer := Wake(s.consumer))
    case CloneH => s.(queue := CloneHandle(s.queue), handles := s.handles + 1)
    case BeginDrop =>
      if order == NotifyThenRelease then
        s.(handles := s.handles - 1, consumer := Wake(s.consumer), unreleased := s.unreleased + 1)
      else
        s.(handles := s.handles - 1, queue := Release(s.queue), owed := s.owed + 1)
    case ReleaseRef => s.(queue := Release(s.queue), unreleased := s.unreleased - 1)
    case Check =>
      var (d, q) := Drain(s.queue);
      match d
      case Batch(_) => s.(queue := q)   // the batch is dispatched outside the lock
      case Wait => s.(consumer := Waiting)
      case Closed => s.(consumer := Exited)
  }

  /** Runs the actions in order from `s`; None if one of them is not
      enabled when its turn comes. */
  function RunFrom<M>(s: State<M>, acts: seq<Action<M>>, order: DropOrder): (r: Option<State<M>>)
    requires Sound(s)
    decreases |acts|
    ensures r.Some? ==> Sound(r.value)
  {
    if acts == [] then Some(s)
    else if Enabled(s, acts[0]) then RunFrom(Step(s, acts[0], order), acts[1..], order)
    else None
  }

  /** A run from the state the proxy constructor leaves: one handle, an
      empty queue, the run loop about to check. */
  function Run<M>(acts: seq<Action<M>>, order: DropOrder): (r: Option<State<M>>)
    ensures r.Some? ==> Sound(r.value)
  {
    RunFrom(Init(), acts, order)
  }

  /** Every handle is gone and no handle operation is half done. */
  predicate Quiescent<M>(s: State<M>) {
    s.handles == 0 && s.owed == 0 && s.unreleased == 0
  }

  /** Quiescent with the run loop asleep or gone: nothing can happen. */
  predicate Stuck<M>(s: State<M>) {
    Quiescent(s) && s.consumer != Checking
  }

  lemma StuckEnablesNothing<M>(s: State<M>, a: Action<M>)
    requires Stuck(s)
    ensures !Enabled(s, a)
  {
  }

  // ---------------------------------------------------------------------
  // As generated: notify first, release after

  /** The run loop sleeps, the only handle's Drop wakes it, the run loop
      re-checks while the handle's reference is still counted and sleeps
      again, then the reference is released. Every handle is gone, nothing
      can wake the run loop, and it never returns. */
  lemma NotifyThenReleaseCanHang(acts: seq<Action<int>>)
    requires |acts| == 4
    requires acts[0] == Check && acts[1] == BeginDrop && acts[2] == Check && acts[3] == ReleaseRef
    ensures var r := Run(acts, NotifyThenRelease);
      && r.Some? && Quiescent(r.value) && r.value.consumer == Waiting && Stuck(r.value)
  {
    var o := NotifyThenRelease;
    var s1 := State(Start(), Waiting, 1, 0, 0);
    var s2 := State(Start(), Checking, 0, 0, 1);
    var s3 := State(Start(), Waiting, 0, 0, 1);
    var s4 := State(Queue(Some([]), 1), Waiting, 0, 0, 0);
    FirstCheckWaits();
    DropWakes();
    SecondCheckWaits();
    ReleaseIsSilent();
    RunFromStep(s3, acts[3..], s4, o);
    RunFromStep(s2, acts[2..], s3, o);
    RunFromStep(s1, acts[1..], s2, o);
    RunFromStep(Init(), acts, s1, o);
  }

  // The four steps of the trace.

  lemma FirstCheckWaits()
    ensures Step(Init<int>(), Check, NotifyThenRelease) == State(Start(), Waiting, 1, 0, 0)
  {
  }

  lemma DropWakes()
    ensures Step(State(Start<int>(), Waiting, 1, 0, 0), BeginDrop, NotifyThenRelease)
            == State(Start(), Checking, 0, 0, 1)
  {
  }

  lemma SecondCheckWaits()
    ensures Step(State(Start<int>(), Checking, 0, 0, 1), Check, NotifyThenRelease)
            == State(Start(), Waiting, 0, 0, 1)
  {
  }

  lemma ReleaseIsSilent()
    ensures Step(State(Start<int>(), Waiting, 0, 0, 1), ReleaseRef, NotifyThenRelease)
            == State(Queue(Some([]), 1), Waiting, 0, 0, 0)
  {
  }

  /** A run takes its first action and continues from the state it leads to. */
  lemma RunFromStep<M>(s: State<M>, acts: seq<Action<M>>, next: State<M>, order: DropOrder)
    requires Sound(s) && acts != [] && Enabled(s, acts[0]) && Step(s, acts[0], order) == next
    ensures RunFrom(s, acts, order) == RunFrom(next, acts[1..], order)
  {
  }

  // ---------------------------------------------------------------------
  // Corrected: release first, notify after

  /** What every state reachable with `ReleaseThenNotify` satisfies. The run
      loop sleeps only while some handle will still push or notify, and it
      has returned only once no handle is left and nothing is buffered. */
  ghost predicate Inv<M>(s: State<M>) {
    && Sound(s)
    && s.unreleased == 0
    && (s.consumer == Waiting ==> s.handles > 0 || s.owed > 0)
    && (s.consumer == Waiting ==> s.queue.buffer.value == [] || s.owed > 0)
    && (s.consumer == Exited ==> s.handles == 0 && s.queue.buffer.value == [])
  }

  lemma StepKeepsInv<M>(s: State<M>, a: Action<M>)
    requires Inv(s) && Enabled(s, a)
    ensures Inv(Step(s, a, ReleaseThenNotify))
  {
  }

  /** `Inv` holds all along a run that starts in it. */
  lemma {:induction false} RunFromKeepsInv<M>(s: State<M>, acts: seq<Action<M>>)
    requires Inv(s) && RunFrom(s, acts, ReleaseThenNotify).Some?
    decreases |acts|
    ensures Inv(RunFrom(s, acts, ReleaseThenNotify).value)
  {
    if acts != [] {
      StepKeepsInv(s, acts[0]);
      RunFromKeepsInv(Step(s, acts[0], ReleaseThenNotify), acts[1..]);
    }
  }

  lemma ReachableInv<M>(acts: seq<Action<M>>)
    requires Run(acts, ReleaseThenNotify).Some?
    ensures Inv(Run(acts, ReleaseThenNotify).value)
  {
    RunFromKeepsInv(Init(), acts);
  }

  /** With the reference released before the notification, once every handle
      is gone the run loop is never asleep: it returns from `play` after at
      most two more checks, having left nothing in the buffer. */
  lemma ReleaseThenNotifyNeverHangs<M>(acts: seq<Action<M>>)
    requires Run(acts, ReleaseThenNotify).Some?
    requires Quiescent(Run(acts, ReleaseThenNotify).value)
    ensures var s := Run(acts, ReleaseThenNotify).value;
      && s.consumer != Waiting
      && (s.consumer == Exited ==> s.queue.buffer.value == [])
      && (s.consumer == Checking ==>
            var s1 := Step(s, Check, ReleaseThenNotify);
            s1.consumer == Exited
            || (s1.consumer == Checking && s1.queue.buffer.value == []
                && Step(s1, Check, ReleaseThenNotify).consumer == Exited))
  {
    ReachableInv(acts);
  }
}
