/**
 The backend x topology table: for each (library, channel) pair, the queue
 primitive the proxy and the run loop share, and how sends, receives and
 reply channels behave. All backend branching of the generator is confined
 to `Channels`.
 */
module ChannelTable {
  import opened Actor

  /** The queue primitive behind the proxy's sender field. */
  datatype Link =
    | StdMpsc          // std::sync::mpsc::channel
    | StdSyncMpsc      // std::sync::mpsc::sync_channel(c)
    | TokioUnbounded   // tokio::sync::mpsc::unbounded_channel
    | TokioBounded     // tokio::sync::mpsc::channel(c)
    | AsyncStdChannel  // async_std::channel::{unbounded, bounded(c)}
    | AsyncChannel     // async_channel::{unbounded, bounded(c)}
    | CondvarQueue     // Arc<Mutex<Option<Vec<_>>>> + Arc<Condvar>

  /** The crate supplying the single-use reply channel. */
  datatype ReplyCrate = OneshotCrate | TokioOneshot

  datatype Caps = Caps(
    link: Link,
    capacity: Option<nat>,  // Some(c): producers suspend once c messages are queued
    receiverMut: bool,      // the run loop's receiver is a `mut` binding
    sendAwaited: bool,      // the proxy's send is a suspension point
    sendFatal: bool,        // a failed proxy send panics; otherwise its error is dropped
    replyAwaited: bool,     // the proxy awaits the reply; otherwise it blocks on it
    reply: ReplyCrate)

  /** The capability record of a (library, channel) pair. The table is written
      row by row, as the source does; the contract states it column by
      column. */
  function Channels(lib: Lib, channel: Channel): (r: Caps)
    ensures r.link == CondvarQueue <==> channel == Inter
    ensures r.capacity.Some? <==> channel.Buffer?
    ensures channel.Buffer? ==> r.capacity == Some(channel.capacity)
    ensures r.sendAwaited <==>
              lib != Std && channel != Inter && !(lib == Tokio && channel == Unbounded)
    ensures r.sendFatal <==> channel != Inter && !r.sendAwaited
    ensures r.replyAwaited <==> lib != Std && channel != Inter
    ensures r.reply == TokioOneshot <==> lib == Tokio && channel != Inter
    ensures r.receiverMut <==> lib == Tokio && channel != Inter
  {
    // Unless a cell overrides them, the send is awaited with its error
    // dropped, the reply is awaited, and the reply channel is `oneshot`.
    match channel
    case Unbounded => (
      match lib
      case Std =>
        Caps(StdMpsc, None, false, false, true, false, OneshotCrate)
      case Tokio =>
        Caps(TokioUnbounded, None, true, false, true, true, TokioOneshot)
      case AsyncStd =>
        Caps(AsyncStdChannel, None, false, true, false, true, OneshotCrate)
      case Smol =>
        Caps(AsyncChannel, None, false, true, false, true, OneshotCrate))
    case Buffer(c) => (
      match lib
      case Std =>
        Caps(StdSyncMpsc, Some(c), false, false, true, false, OneshotCrate)
      case Tokio =>
        Caps(TokioBounded, Some(c), true, true, false, true, TokioOneshot)
      case AsyncStd =>
        Caps(AsyncStdChannel, Some(c), false, true, false, true, OneshotCrate)
      case Smol =>
        Caps(AsyncChannel, Some(c), false, true, false, true, OneshotCrate))
    case Inter =>
      Caps(CondvarQueue, None, false, false, false, false, OneshotCrate)
  }

  /** The condvar batching queue is defined once: every backend gets the same
      capabilities for it. */
  lemma InterSharedByAllLibs(a: Lib, b: Lib)
    ensures Channels(a, Inter) == Channels(b, Inter)
    ensures Channels(a, Inter).capacity.None? && !Channels(a, Inter).sendAwaited
  {
  }

  /** The synchronous backend never suspends: neither its send nor its
      reply receive is awaited, and a failed send is fatal. */
  lemma StdNeverSuspends(channel: Channel)
    ensures !Channels(Std, channel).sendAwaited && !Channels(Std, channel).replyAwaited
    ensures channel != Inter ==> Channels(Std, channel).sendFatal
  {
  }
}
