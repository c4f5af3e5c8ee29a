# Creative-mode slot synchronisation (mineflayer `bot.creative`)

This project models the slot synchroniser of mineflayer's creative plugin,
`lib/plugins/creative.js`. A bot in creative mode sets an inventory slot by
writing a `set_creative_slot` packet. A per-slot pending-update flag
(`creativeSlotsUpdates`) turns away a second call on a slot while a first is
still outstanding. How a call completes depends on whether the host
acknowledges the packet:

- **Unacknowledged protocol:** the slot is written locally at once. The call
  then waits a short window: an update that reports a different item type
  rejects the call, and the window's timer resolves it.
- **Acknowledged protocol:** the call waits up to 5000 ms for an update that
  matches the requested stack by name, count and metadata.

`clearSlot` and `clearInventory` are built on `setInventorySlot`.
`startFlying` and `stopFlying` switch a gravity override.

The model is a state machine:

- `SlotSync` holds the state: flags, local slots, packets sent, outstanding
  waits in registration order, and the next call number. It defines three
  steps:
  - `Begin` is the synchronous part of a call, up to its first wait;
  - `OnUpdateSlot` is a slot update delivered to the listeners;
  - `OnTimeout` is a call's timer firing.
- `Delivery` and `Steps` state, index by index, what those steps do.
- `AckMode` proves the invariant of the acknowledged protocol.
- `Lockout` and `StaleTimer` show the defects listed under Findings.
- `Corrected` holds the repaired protocol and proves its invariant under any
  sequence of events.
- `ClearAll` models `clearInventory`'s choice of slots and its calls.
- `Creative.Creative` is the plugin object: arrays updated in place, and
  methods proved to perform the model's steps.

Every exit of `setInventorySlot` is evidently meant to clear the slot's flag
again. The rejection listener (line 45), the window timer (line 52) and the
acknowledged success path (line 62) all clear it. The warning at line 23 only
forbids a second call on a slot before the first promise succeeds. Two exits
do not clear the flag, and the model follows the code there:

- With a wait of 0 (line 40), the call returns with the flag still set.
- When an acknowledged call times out (lines 58-62), the failed await skips
  line 62, and the flag stays set.

## Model

| member | source | states |
|---|---|---|
| `Items.SameStack` | lib/plugins/creative.js:27 | the fast path's equality: a slot already holding exactly the requested stack takes it, and it never takes an empty slot for a filled one |
| `Items.AckMatch` | lib/plugins/creative.js:60 | the acknowledgement condition: a host echoing the request acknowledges it, and an acknowledgement never takes an empty slot for a filled one |
| `SlotSync.Initial` | lib/plugins/creative.js:21 | a fresh connection has no flag set and keeps the given inventory |
| `SlotSync.Hear` | lib/plugins/creative.js:43-48 | one listener leaves at most one wait of its own slot behind and keeps the flag table's size |
| `SlotSync.Emit` | lib/plugins/creative.js:49 | delivering an update keeps the flag table's size and every wait's slot in range |
| `SlotSync.OnUpdateSlot` | lib/plugins/creative.js:39 | a slot update yields a well-formed state (its effect: `Steps.UpdateFrame`, `Steps.NoAckHeard`, `AckMode.AckUpdate`) |
| `SlotSync.Expire` | lib/plugins/creative.js:50-54 | a timer keeps the flag table's size |
| `SlotSync.Fire` | lib/plugins/creative.js:50-54 | firing a call's timer keeps the flags' size and the waits in range |
| `SlotSync.OnTimeout` | lib/plugins/creative.js:50-54 | a timer yields a well-formed state (its effect: `Steps.TimeoutEffect`) |
| `SlotSync.Proceeds` | lib/plugins/creative.js:25-30 | a call gets past the guards only for a slot in 0..44 whose flag is clear and which does not already hold exactly the item |
| `SlotSync.Begin` | lib/plugins/creative.js:24-61 | a call yields a well-formed state (its effect: the `Steps.Begin*` lemmas) |
| `Delivery.HearFlags` | lib/plugins/creative.js:43-48 | a listener changes only its own slot's flag, only by clearing it, and what it leaves behind is its own call's wait for the same item |
| `Delivery.EmitFlags` | lib/plugins/creative.js:45 | an update event changes no other slot's flag and can only clear its own |
| `Delivery.EmitSilent` | lib/plugins/creative.js:49 | an update that no listener hears changes nothing and settles nothing |
| `Delivery.EmitNoWaitOn` | lib/plugins/creative.js:49 | an update event never creates a wait for a slot |
| `Delivery.EmitOneListener` | lib/plugins/creative.js:43-49 | an update heard by exactly one listener has exactly that listener's effect, and its wait is replaced in place |
| `Delivery.FireAt` | lib/plugins/creative.js:50-54 | a timer removes the first wait of its call and has that wait's effect; with no such wait nothing happens |
| `Steps.BeginGuards` | lib/plugins/creative.js:25-30 | a slot outside 0..44 fails the assertion; a slot already holding the item succeeds at once; a flagged slot fails with a conflict naming it; none of them changes the state or settles anything |
| `Steps.BeginSends` | lib/plugins/creative.js:31-35 | once past the guards, exactly one `(slot, item)` packet is appended; no other slot's flag or content changes; the slot's flag is set unless an earlier listener clears it |
| `Steps.OneListenerUpdate` | lib/plugins/creative.js:43-49 | a slot update heard by one listener only has exactly that listener's flags, settlements and throw, and its wait is removed or replaced in place |
| `Steps.NoAckHeard` | lib/plugins/creative.js:43-48 | unacknowledged protocol, the slot's one rejection listener hears an update: a different item type rejects the call with "Server rejected" and clears the flag; the same type settles nothing and leaves the flag; an empty stack on either side throws with the flag left set; the slot keeps the reported stack and the listener is gone afterwards |
| `Steps.UpdateFrame` | lib/plugins/creative.js:39 | an update writes exactly its slot; packets and call numbers are unchanged; no other flag changes and its own flag can only be cleared; an unheard update changes nothing else |
| `Steps.BeginAck` | lib/plugins/creative.js:58-61 | acknowledged protocol: the inventory is untouched; the call waits exactly when the guards pass, with its flag set and one new acknowledgement wait |
| `Steps.BeginNoAck` | lib/plugins/creative.js:37-55 | unacknowledged protocol: the slot holds the item before any wait; a wait of 0 resolves at once with the flag left set; otherwise one new rejection window is added; a throwing earlier listener fails the call |
| `Steps.TimeoutEffect` | lib/plugins/creative.js:50-54 | a window's timer clears its flag and resolves unless already rejected; an acknowledgement timer fails with a timeout and leaves the flag set; only that call's wait goes away |
| `AckMode.AckInitial` | lib/plugins/creative.js:21 | a fresh connection satisfies the acknowledged invariant |
| `AckMode.AckBegin` | lib/plugins/creative.js:28-31 | a call keeps the invariant (at most one wait per slot, each wait's slot flagged); a call on a slot with an outstanding call is turned away and changes nothing |
| `AckMode.AckUpdate` | lib/plugins/creative.js:58-62 | an update settles the slot's call exactly when it matches by name, count and metadata; the flag is cleared and the wait removed exactly then; the invariant is kept |
| `AckMode.AckHeard` | lib/plugins/creative.js:60-62 | the slot's one wait hears the update: on a match it resolves and its flag is cleared; otherwise nothing changes |
| `AckMode.AckRemove` | lib/plugins/creative.js:62 | removing a wait together with its flag keeps the invariant |
| `AckMode.AckTimeout` | lib/plugins/creative.js:58-62 | an acknowledgement timer fails its call with a timeout, keeps the invariant and leaves every flag as it was |
| `Lockout.Run` | lib/plugins/creative.js:24-63 | any sequence of calls, updates and timers yields a well-formed state |
| `Lockout.StuckBegin` | lib/plugins/creative.js:28-30 | a slot that is flagged with no wait left stays so through any call; a call that would change it fails with a conflict |
| `Lockout.StuckUpdate` | lib/plugins/creative.js:43-48 | such a slot stays stuck through any slot update |
| `Lockout.StuckTimeout` | lib/plugins/creative.js:50-54 | such a slot stays stuck through any timer |
| `Lockout.StuckForever` | lib/plugins/creative.js:28-31 | such a slot stays stuck through any sequence of events |
| `Lockout.ZeroWaitLocks` | lib/plugins/creative.js:40 | as written, an unacknowledged call with a wait of 0 resolves at once and leaves its slot stuck |
| `Lockout.AckTimeoutLocks` | lib/plugins/creative.js:58-62 | as written, an acknowledged call that times out leaves its slot stuck |
| `Lockout.LockedAfterFirstCall` | lib/plugins/creative.js:24-63 | from a fresh connection, after either exit above, every later call that would change the slot fails with a conflict, whatever happened in between |
| `StaleTimer.StaleTimerAdmitsSecondCall` | lib/plugins/creative.js:43-54 | as written, a rejected call's timer clears the flag of a newer call; a third call on the slot is admitted, and its local write rejects the newer call |
| `StaleTimer.CorrectedTurnsAwaySecondCall` | lib/plugins/creative.js:43-54 | corrected, the same events end with the third call failing with a conflict, and the newer call is untouched |
| `Corrected.Live` | lib/plugins/creative.js:46 | the waits left once a rejection also cancels its timer: none rejected, all in range |
| `Corrected.LiveNone` | lib/plugins/creative.js:46 | with nothing rejected, nothing is dropped |
| `Corrected.LiveOne` | lib/plugins/creative.js:46 | with one rejected window, exactly that one is dropped |
| `Corrected.BeginFixed` | lib/plugins/creative.js:40 | corrected call (a call that does not wait clears its flag) yields a well-formed state |
| `Corrected.OnUpdateSlotFixed` | lib/plugins/creative.js:43-48 | corrected update (a rejection cancels its timer) yields a well-formed state |
| `Corrected.OnTimeoutFixed` | lib/plugins/creative.js:58-62 | corrected timer (an acknowledgement timeout clears its flag) yields a well-formed state |
| `Corrected.MirrorsNeverStuck` | lib/plugins/creative.js:28-31 | when the flags mirror the outstanding calls, no slot is stuck |
| `Corrected.MirrorsInitial` | lib/plugins/creative.js:21 | a fresh connection has no flag and no outstanding call, so its flags mirror its calls |
| `Corrected.MirrorsAppend` | lib/plugins/creative.js:31 | a new call on a slot without waits, with its flag set, keeps the invariant |
| `Corrected.MirrorsReplace` | lib/plugins/creative.js:49 | replacing a wait by one for the same slot that is not rejected keeps the invariant |
| `Corrected.MirrorsRemove` | lib/plugins/creative.js:45 | removing a wait together with its flag keeps the invariant |
| `Corrected.MirrorsBegin` | lib/plugins/creative.js:24-61 | a corrected call keeps the flags mirroring the calls; a call on a slot with an outstanding call is turned away; an admitted call settles nothing and cannot be failed by another call's listener |
| `Corrected.MirrorsUpdate` | lib/plugins/creative.js:43-48 | a corrected update keeps the flags mirroring the calls |
| `Corrected.MirrorsHeard` | lib/plugins/creative.js:43-48 | the slot's one listener hearing the update keeps the invariant |
| `Corrected.HeardKept` | lib/plugins/creative.js:43-48 | a wait kept after hearing, or removed with its flag when rejected, keeps the invariant |
| `Corrected.MirrorsTimeout` | lib/plugins/creative.js:50-54 | a corrected timer keeps the flags mirroring the calls |
| `Corrected.RunFixed` | lib/plugins/creative.js:24-63 | any sequence of corrected events yields a well-formed state |
| `Corrected.MirrorsForever` | lib/plugins/creative.js:24-63 | under the corrected protocol every sequence of events keeps the flags mirroring the outstanding calls, so per-slot exclusion holds and no slot is ever stuck |
| `ClearAll.Occupied` | lib/plugins/creative.js:66 | exactly the non-empty slots below a bound, strictly increasing |
| `ClearAll.OccupiedSlots` | lib/plugins/creative.js:66 | `filter(item => item)`: exactly the non-empty slots, in slot order |
| `ClearAll.ClearCalls` | lib/plugins/creative.js:66 | one reply per cleared slot, and a well-formed state |
| `ClearAll.Requests` | lib/plugins/creative.js:66 | no more packets than targets, each a `(t, null)` for one of the targets |
| `ClearAll.RequestsOrdered` | lib/plugins/creative.js:66 | for targets in increasing slot order the packets are in increasing slot order, so no slot gets two |
| `ClearAll.ClearFrame` | lib/plugins/creative.js:66 | a slot that is not a target keeps its flag and content |
| `ClearAll.TargetUntouched` | lib/plugins/creative.js:66 | each call sees its slot as it was when clearInventory was called |
| `ClearAll.ClearSends` | lib/plugins/creative.js:66 | the packets sent are `(t, null)` for exactly the in-range targets whose flag is not set, in order |
| `ClearAll.ClearReplies` | lib/plugins/creative.js:66 | the offhand slot (45) fails the range assertion; a flagged target fails with a conflict |
| `ClearAll.ClearPrefix` | lib/plugins/creative.js:66 | later calls do not change earlier replies |
| `ClearAll.ClearFromStart` | lib/plugins/creative.js:66 | from a fresh connection, exactly the non-empty slots 0..44 get a `(t, null)` packet, one each and in slot order |
| `ClearAll.RequestsExact` | lib/plugins/creative.js:66 | with no flag set, every in-range target gets its packet and only in-range slots do |
| `Creative.Flying` | lib/plugins/creative.js:98-100 | gravity is overridden to 0; every other override is kept |
| `Creative.Grounded` | lib/plugins/creative.js:102-104 | the gravity override is gone; every other override is kept |
| `Creative.FlyingIdempotent` | lib/plugins/creative.js:98-104 | switching flying on or off twice equals switching once; the last switch alone decides |
| `Creative.Creative.constructor` | lib/plugins/creative.js:21 | the object stands for a fresh connection |
| `Creative.Creative.SetInventorySlot` | lib/plugins/creative.js:24-63 | in-place updates of the flag array and inventory perform exactly `Begin` |
| `Creative.Creative.UpdateSlot` | lib/plugins/creative.js:39 | a slot update performs exactly `OnUpdateSlot`, writing one inventory cell and at most one flag |
| `Creative.Creative.Timeout` | lib/plugins/creative.js:50-54 | a timer performs exactly `OnTimeout`, clearing the flag in place for a window |
| `Creative.Creative.ClearSlot` | lib/plugins/creative.js:17 | `setInventorySlot(slot, null)` with the default wait of 400 ms |
| `Creative.Creative.ClearInventory` | lib/plugins/creative.js:65-67 | the loop performs exactly `ClearCalls` over the slots non-empty at call time |
| `Creative.Creative.StartFlying` | lib/plugins/creative.js:98-100 | the overrides become `Flying` of the old ones; nothing else changes |
| `Creative.Creative.StopFlying` | lib/plugins/creative.js:102-104 | the overrides become `Grounded` of the old ones; nothing else changes |

## Left out

- `flyTo` and `vecMagnitude` (lines 72-96, 108-110) are left out. They are floating-point vector steps timed by 50 ms sleeps and an awaited `move` event.
- The packet encoding (`Item.toNotch`, lines 32-35) is left out; a packet is the pair `(slot, item)`.
- The network write is an append to the packet log.
- `Item.equal` (prismarine-item, line 27) is not part of this model. `SameStack` compares `itemId`, count, metadata and NBT, with NBT kept as a string.
- `Item.itemId` is taken to be populated on every stack and to be the item type that `Item.equal` compares, so the `itemId` test of the rejection listener (line 44) and the fast path (line 27) agree on what a type is. prismarine-item is not part of this model, so this is an assumption.
- `bot.supportFeature` is the boolean `noAck`, fixed for an object.
- `bot._setSlot` is not part of this model. It is taken to write the slot and then synchronously emit `updateSlot:<slot>` to the listeners already registered.
- `onceWithCleanup` is not part of this model. It is taken to keep listening until an update passes the condition and, on its timeout, to remove the listener and reject.
- Timers, the event loop and microtask order are not modelled. An event is one discrete step, and a timer fires only through `OnTimeout`.
- `Promise.all` in `clearInventory` is not modelled: the replies of its calls are returned one by one, not aggregated into the first failure.
- `clearInventory` takes each item's `slot` field to be its index in `inventory.slots`.
- The message text of the errors is not modelled. A conflict carries the slot number.
- `Creative.Creative.UpdateSlot` computes delivery to all listeners with the pure `Emit`. Node's listener loop is not code of this plugin.
- SlotSync.Begin: its own ensures states only that the result is well formed; what a call does is stated by `Steps.BeginGuards`, `Steps.BeginSends`, `Steps.BeginAck` and `Steps.BeginNoAck`.
- SlotSync.OnUpdateSlot: its own ensures states only well-formedness and the inventory size; its effect is stated by `Steps.UpdateFrame`, by `Steps.NoAckHeard` for the unacknowledged protocol and by `AckMode.AckUpdate` for the acknowledged one.
- SlotSync.OnTimeout: its own ensures states only well-formedness; its effect is stated by `Steps.TimeoutEffect` and `Delivery.FireAt`.
- Corrected.BeginFixed, Corrected.OnUpdateSlotFixed, Corrected.OnTimeoutFixed: their own ensures state only well-formedness; the corrected protocol's guarantee is `Corrected.MirrorsForever`.

## Findings

| source | as written | input that shows it | evidently intended | confidence | as-written member | corrected member |
|---|---|---|---|---|---|---|
| lib/plugins/creative.js:43-54 | a rejection clears the flag but leaves the call's timer armed; when that timer fires it clears the flag again, even if a newer call on the slot is outstanding | unacknowledged host, slot 36: set stone; the host reports dirt; set sand; call 0's timer fires; set stone again | a rejection also cancels its timer, so a second call on a slot with an outstanding call fails with a conflict | not executed; medium (step 2 depends on `itemId` being populated and distinct for stone and dirt; the last step's spurious rejection depends on `_setSlot` emitting synchronously) | `StaleTimer.StaleTimerAdmitsSecondCall` | `Corrected.MirrorsUpdate` |
| lib/plugins/creative.js:40 | the early return for a wait of 0 leaves the flag set, and nothing clears it later | unacknowledged host, fresh connection: `setInventorySlot(36, stone, 0)`, then `setInventorySlot(36, dirt)` | the flag is cleared when the call resolves | not executed; medium | `Lockout.ZeroWaitLocks` | `Corrected.MirrorsBegin` |
| lib/plugins/creative.js:58-62 | when the acknowledgement times out, the failed await skips line 62, so the flag stays set for ever | acknowledging host that never confirms: `setInventorySlot(36, stone)`, 5000 ms pass, then `setInventorySlot(36, dirt)` | the flag is cleared on the timeout path too, so the caller can retry | not executed; medium | `Lockout.AckTimeoutLocks` | `Corrected.MirrorsTimeout` |
