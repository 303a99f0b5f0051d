# interthread actor generator, modelled in Dafny

interthread is a Rust procedural-macro crate. Its `actor` macro takes a
type with a constructor (`new` or `try_new`) and public methods. From them
it generates two things:

- a *script*: an enum with one variant per message method, plus a
  `direct` function that applies a message to the actor and a `play` run
  loop;
- a *live* proxy: a clonable handle whose methods send messages to the run
  loop and wait for the replies.

The macro's logic is in `src/actor_gen.rs`. This project models that file
in two layers.

**The generator.** Token streams are replaced by typed fragment records.
Each fragment is a name and a `Body`, and the body records the choices the
generated Rust code embodies. The modules are:

- `Actor`: the input to generation. It holds the already-classified
  methods (kind `Io`/`I`/`O`/`Neither`, plus the `stat` and `async` flags),
  the optional constructor, and the configuration: backend library, channel
  topology, `id` and `name`, and the edit selectors.
- `ChannelTable`: the backend × topology table of `channels`, as a
  capability record. It gives the link kind, the capacity, whether send and
  reply are awaited, whether a send failure is fatal, and the reply-channel
  crate.
- `EditSelect`: `edit_select`, which moves the fragments named by an edit
  selector out of a list, or aborts on an unknown name.
- `Generate`: `actor_macro_generate_code` and `live_static_method`. It
  covers the per-kind fragments, the constructor, the identity fragments,
  `direct`, `play`, `Debug` and `Drop`, and then the edit split into code
  and edit outputs.

**Runtime rules baked into the generated code.** These are modelled
sequentially, with concurrency shown as the order of atomic steps:

- `Debut`: the `debut` timestamp minting over a shared last-instant cell.
- `Identity`: equality and the reversed ordering of live handles by
  `debut`, and the handle count shared by clones.
- `InterQueue`: the mutex-guarded batching buffer of the `inter` channel,
  as a state machine.
- `InterWake`: the condition-variable wake-up protocol between the run loop
  and the handles of the `inter` channel.

Sending into a terminated run loop is not always fatal. The code's default
for the async backends writes
`let _ = self.sender.send(msg).await;` (src/actor_gen.rs:738), so the error
is discarded. Tokio's unbounded send is the one async case that uses
`.expect`. The `inter` send pushes through `Option::map`, so a push onto a
taken buffer would be dropped silently. `ChannelTable.Channels` records this
as `sendFatal`, which is true only when the send is not awaited and the
channel is not `inter`.

## Model

| member | source | states |
|---|---|---|
| Actor.FirstAsync | src/actor_gen.rs:97-101 | The position reported in the async-without-runtime diagnostic is the first async method: it is async and no method before it is. |
| ChannelTable.Channels | src/actor_gen.rs:712-852 | Per backend and topology: the condvar queue is used iff the channel is `inter`; a capacity is present iff the channel is bounded, and it is the configured one; sends are awaited iff the backend is async, the channel is not `inter`, and it is not tokio's unbounded channel; a send failure is fatal iff the send is not awaited and the channel is not `inter`; replies are awaited iff the backend is async and the channel is not `inter`; the tokio oneshot is the reply channel, and the receiver is `mut`, iff the backend is tokio and the channel is not `inter`. |
| ChannelTable.InterSharedByAllLibs | src/actor_gen.rs:812-839 | The `inter` channel gives the same link, receiver, send and reply behaviour whatever the backend library. |
| ChannelTable.StdNeverSuspends | src/actor_gen.rs:731-742 | On the std backend nothing is awaited: neither the send nor the reply. |
| EditSelect.SelectNamed | src/actor_gen.rs:698-706 | With named identifiers, on success one fragment is selected per identifier, in identifier order and carrying that name, and selected plus remaining fragments have the list's length; on failure the reported identifier is one of those requested. |
| EditSelect.Select | src/actor_gen.rs:686-709 | No selector selects nothing and keeps the list; an empty selector selects the whole list in order and leaves nothing; with names it behaves as `SelectNamed`, and a failure names a requested identifier. |
| EditSelect.SelectNamedOkIff | src/actor_gen.rs:698-706 | The selection succeeds iff each identifier, counted with repetition, names at least that many fragments: an identifier with no match, or one already used up, aborts. |
| EditSelect.SelectNamedEarliest | src/actor_gen.rs:699-700 | For every name, the selected fragments of that name followed by the remaining ones are exactly the list's fragments of that name in order, so the earliest matches are the ones taken. |
| EditSelect.SelectNamedPermutes | src/actor_gen.rs:698-706 | Selected and remaining fragments together are a permutation of the list: nothing is lost or duplicated. |
| EditSelect.SelectNamedKeepsOrder | src/actor_gen.rs:700 | The remaining fragments keep their relative order in the list. |
| EditSelect.DuplicateAborts | src/actor_gen.rs:698-706 | Naming a fragment twice when the list has only one fragment of that name aborts. |
| Generate.MessagesDescribeMethods | src/actor_gen.rs:129-292 | Every method that is not a static pass-through gets exactly one script variant, direct arm and debug arm, in method order. The variant carries an input iff the kind is I or Io, and a reply of the backend's oneshot crate iff the kind is O or Io. The arm calls that method and awaits it iff it is async. |
| Generate.Messaged | src/actor_gen.rs:129-292 | The methods that become messages are exactly the actor methods that are not static Io/O pass-throughs. |
| Generate.LiveMethodsDescribeMethods | src/actor_gen.rs:13-29 | Every actor method gets one proxy method with its name, in order. A static Io/O method is forwarded directly to the actor type, awaited iff its proxy signature is async. Every other method builds its message with an input iff it takes one and waits for a reply iff it returns one. |
| Generate.LiveMethods | src/actor_gen.rs:296-388 | The live methods are the constructor at index 0, which spawns `play` on the backend's spawner and sets up the queue or channel and identity, then one proxy method per actor method in order, then the four identity accessors when `id` is on. |
| Generate.ScriptMethods | src/actor_gen.rs:459-536 | The script methods are `debut` when `id` is on, then `direct` and `play`. `direct` is async iff some method is async. `play` is async iff the backend is not std and drains batches iff the channel is `inter`. Otherwise it matches `Some` on receive iff the backend is tokio, and one await, present iff some method is async, follows every call of `direct` and, outside `inter`, the receive too: on an async backend with no async method, `play` is async but awaits nothing. |
| Generate.LiveTraits | src/actor_gen.rs:416-509 | The live traits are PartialEq, Eq, PartialOrd and Ord when `id` is on, followed by Drop iff the channel is `inter`. |
| Generate.Assemble | src/actor_gen.rs:449-576 | The script enum and live struct carry the custom name's `Script` and `Live` names. The variants, the arms of `direct` and the arms of the single `Debug` impl describe the message methods index by index. The live methods are the constructor followed by one per method. The live struct carries identity iff `id` is on, and it uses the condvar queue iff the channel is `inter`. |
| Generate.Generate | src/actor_gen.rs:57-105 | Without a constructor, generation aborts with the trait-specific or the plain missing-constructor error. Otherwise, on std with an async method, it aborts with the async-without-runtime error naming the first async method. Once neither check applies, the only possible failure is an unknown edit target, and the identifier it names is one that a script or live selector, of methods or of traits, requested. |
| Generate.GeneratePartitions | src/actor_gen.rs:578-616 | After a successful generation, each of the four fragment groups is split between the code and edit outputs without loss or duplication, with the emitted ones in generation order. Each type definition lands in exactly one of the two outputs. |
| Generate.NoEditEmitsEverything | src/actor_gen.rs:578-616 | Without edit selectors, generation succeeds whenever the checks pass. The code output is everything generated, and the edit output is empty. |
| Debut.Mint | src/actor_gen.rs:393-413 | A minted instant is strictly later than the last one, and it consumes at least one clock reading. |
| Debut.MintFirstReadingNotEarlier | src/actor_gen.rs:397-411 | `debut` stops at the first reading that is not earlier than the last instant. It returns that reading, or one nanosecond more when the two are equal, and leaves later readings unread. It never returns only if every reading is earlier. |
| Debut.SeriesStrictlyIncreasing | src/actor_gen.rs:393-413 | Successive calls sharing the cell mint strictly increasing instants, all later than the initial cell value. The cell ends holding the last one. |
| Debut.EqualReadingIsBumped | src/actor_gen.rs:403-405 | A reading equal to the last instant is bumped by one nanosecond. |
| Debut.EarlierReadingIsReread | src/actor_gen.rs:406-408 | A reading earlier than the last instant is discarded, and the clock is read again. |
| Identity.Cmp | src/actor_gen.rs:440-446 | `cmp` is Equal iff the handles' instants are equal. It is Greater iff this handle's instant is earlier, so the ordering is reversed. |
| Identity.PartialCmp | src/actor_gen.rs:431-437 | `partial_cmp` is always defined and agrees with `cmp`. |
| Identity.NameIgnored | src/actor_gen.rs:416-446 | Equality and ordering do not depend on the handles' names. |
| Identity.CmpIsTotalOrder | src/actor_gen.rs:431-446 | The reversed ordering is antisymmetric, consistent with equality, and transitive. |
| Identity.ConstructionOrder | src/actor_gen.rs:393-446 | Among actors constructed one after another, each earlier one compares Greater than each later one and is never equal to it, whatever the names. |
| Identity.HandleCount | src/actor_gen.rs:368-373 | Over any sequence of clones and drops of a new handle, the count that `inter_get_count` reports is one plus the clones minus the drops, and every handle keeps the original instant. The sequence can be carried out exactly when every clone and every drop finds a live handle. |
| Identity.NoCloneAfterLastDrop | src/actor_gen.rs:569 | A clone comes from a live handle: once the only handle is dropped, the count is zero and no clone can follow. |
| Identity.CloneCount | src/actor_gen.rs:368-373 | Cloning a new handle k times leaves k + 1 live handles on the same instant. |
| Identity.CloneEqualsOriginal | src/actor_gen.rs:416-423 | A clone equals its original and compares Equal to it, even after renaming. |
| InterQueue.ApplyConserves | src/actor_gen.rs:513-530 | One send, clone, drop or drain keeps the conservation law: the batches drained so far followed by the buffer are the initial buffer followed by the messages sent so far, every batch is non-empty, and once the loop has stopped the buffer is empty and only the run loop's reference is left. |
| InterQueue.Drain | src/actor_gen.rs:515-525 | One pass of `queuing` returns the whole non-empty buffer in order and resets it to an empty one. It waits iff the buffer is empty and some handle is alive, and returns None iff the buffer is empty and only the run loop's reference is left. |
| InterQueue.RunConservesMessages | src/actor_gen.rs:513-530 | Over any sequence of sends, clones, drops and drains, the drained batches followed by the current buffer are the initial buffer followed by every message sent, in order. Every batch is non-empty, and the loop has stopped only with an empty buffer and no live handle. |
| InterWake.NotifyThenReleaseCanHang | src/actor_gen.rs:501-508 | As generated, the trace check, drop, check, release leaves no handle, no pending notification and the run loop asleep. In that state no action is enabled, so the run loop never returns. |
| InterWake.StuckEnablesNothing | src/actor_gen.rs:515-525 | A quiescent state with the run loop asleep or gone allows no further action. |
| InterWake.RunFromKeepsInv | src/actor_gen.rs:515-525 | With the corrected drop order, the wake-up invariant below, once it holds, holds after any sequence of enabled actions. |
| InterWake.ReachableInv | src/actor_gen.rs:515-525 | With the reference released before the notification, every reachable state keeps the counted references equal to one plus the live handles. The run loop sleeps only while a handle can still notify it or nothing is buffered, and it has returned only with no handle left and an empty buffer. |
| InterWake.ReleaseThenNotifyNeverHangs | src/actor_gen.rs:515-525 | With the corrected drop order, once every handle is gone the run loop is never asleep: it returns within two more checks and leaves nothing in the buffer. |

## Left out

- src/lib.rs is not part of this model: it holds only the macro entry points, attribute parsing, file writing for `example`, and the unconditional abort of `group`.
- examples/intro_group.rs is not part of this model: it contains no logic.
- Method classification (`method::get_methods`, `is_trait`), name derivation (`name::script`, `name::live`, `name::get_name_and_type`), generics splitting and the `error` diagnostics are not part of this model. They are in modules the model does not see.
  - The methods arrive already classified.
  - The script and live names are modelled as the custom name plus `Script` or `Live`, as the crate's usage documentation shows.
  - Diagnostics are `GenError` constructors, without their text.
- The `end_of_play` diagnostic (`error::end_of_life`, src/actor_gen.rs:477, 494, 531) that `play` emits after its loop ends is not modelled: it is text from the `error` module, which the model does not see.
- The `method` helpers that `actor_gen` calls are not part of this model: `get_sig_and_field_name` (src/actor_gen.rs:111), `to_async` (line 114), `change_signature_refer` (line 21) and `arguments_ident_type` (lines 132, 178, 215, 300).
  - The script field name arrives on each method (`field`).
  - The argument lists are not modelled; only whether a method takes an input is.
  - `liveAsync` stands for the asyncness of the proxy signature after both rewrites, `to_async` and then `change_signature_refer`, and it is used where the source reads that signature.
- The `assoc` option is an input to method classification only, so it is not modelled.
- Token-level rendering is not modelled: `quote!`, `format_ident!`, turbofish, where-clauses, visibility and generics. The fragments record the choices, not the Rust syntax.
- Real threads, spawning, and the semantics of the external channel crates are not modelled. The spawner is recorded as a tag, and the `inter` channel is modelled as sequential atomic steps.
- `InterWake` treats each step as atomic. It does not model spurious wake-ups, or a release that interleaves inside the run loop's critical section. Both only add behaviours, so the hang trace stays possible.
- `SystemTime` and nanosecond `Duration` are integers, and the clock is a finite sequence of readings. `Debut.Mint` returns None when the readings run out; the source keeps reading the clock. It is the only place where the model can fail to produce an instant.
- `.expect` panics on poisoned locks and closed channels are not modelled as runtime behaviour. Whether a failed send panics is recorded as `ChannelTable.Caps.sendFatal`.
- Debut.Mint: its own contract states only the strict increase and that a reading is consumed. The exact result is stated by `Debut.MintFirstReadingNotEarlier`.

## Findings

| source | as written | input that shows it | evidently intended | confidence | as-written member | corrected member |
|---|---|---|---|---|---|---|
| src/actor_gen.rs:501-508 | The `Drop` impl of an `inter` live handle calls `notify_one` in its body. Rust runs the body before it drops the handle's fields, so the handle's reference to the queue is released after the notification, without the queue's lock. | One handle and an idle run loop. The loop checks and waits. The handle is dropped and its notification wakes the loop. The loop re-checks while the strong count is still 2, and waits again. Then the count drops to 1, and no notification follows. | The run loop returns from `play` once the last handle is gone: the handle's claim is given up under the lock before the notification. | not executed | InterWake.NotifyThenReleaseCanHang | InterWake.ReleaseThenNotifyNeverHangs |
