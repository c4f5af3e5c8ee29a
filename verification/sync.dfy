/** The slot synchroniser of the creative plugin as a state machine.

    `setInventorySlot` runs synchronously up to its first wait; that part is
    `Begin`. What happens afterwards is driven by two kinds of events: the
    inventory announcing a new value for a slot (`OnUpdateSlot`) and the timer
    of an outstanding call expiring (`OnTimeout`). Each outstanding listener or
    timer is a `Wait`, kept in registration order, which is the order in which
    an event emitter calls its listeners. */
module SlotSync {
  import opened Items

  /** setInventorySlot accepts the slot indices 0..44. */
  const SlotCount: nat := 45
  /** The wait of the unacknowledged protocol when the caller gives none (ms). */
  const DefaultWaitTimeout: int := 400

  predicate InRange(slot: int) { 0 <= slot < SlotCount }

  /** One outbound `set_creative_slot` packet. */
  datatype Request = Request(slot: int, item: Stack)

  datatype Failure =
    | InvalidSlot          // the range assertion fails
    | Conflict(slot: int)  // a mutation of this slot is already pending
    | ServerRejected       // the host reported a different item type
    | TimedOut             // no acknowledgement arrived in time
    | ListenerThrew        // the local write reached a listener that threw

  datatype Outcome = Resolved | Failed(error: Failure)

  /** What a call to setInventorySlot has produced when it first yields:
      a settled promise, or a promise that a later event settles. */
  datatype Reply = Now(outcome: Outcome) | Waiting(id: nat)

  /** A promise of call `id` settled by an event. */
  datatype Settlement = Settled(id: nat, outcome: Outcome)

  /** `Window`: the unacknowledged protocol; a one-shot rejection listener
      (still registered while `listening`) and a timer that is always armed
      until it fires; `rejected` records that the promise already failed.
      `Ack`: the acknowledged protocol; a listener waiting for a matching slot
      update, together with its 5000 ms timer. */
  datatype WaitKind = Window(listening: bool, rejected: bool) | Ack

  datatype Wait = Wait(id: nat, slot: int, item: Stack, kind: WaitKind)

  /** `pending` is the table of pending-update flags (a missing entry of the
      source's sparse array is `false`), `slots` the local inventory, `outbox`
      the packets written so far, `waits` the outstanding listeners and timers,
      `nextId` the identity of the next call that waits. */
  datatype State = State(
    pending: seq<bool>,
    slots: seq<Stack>,
    outbox: seq<Request>,
    waits: seq<Wait>,
    nextId: nat)

  predicate Valid(s: State)
  {
    |s.pending| == SlotCount && |s.slots| >= SlotCount && WaitsWithin(s.waits, SlotCount)
  }

  /** The state of a fresh connection: no flag set, nothing sent. */
  function Initial(slots: seq<Stack>): (s: State)
    requires |slots| >= SlotCount
    ensures Valid(s) && s.slots == slots
    ensures forall j :: 0 <= j < SlotCount ==> !s.pending[j]
  {
    State(seq(SlotCount, _ => false), slots, [], [], 0)
  }

  /** Does `w` still have a listener for update events of `slot`? */
  predicate Listens(w: Wait, slot: int)
  {
    w.slot == slot && (w.kind.Ack? || w.kind.listening)
  }

  predicate NoListener(ws: seq<Wait>, slot: int)
  {
    forall i :: 0 <= i < |ws| ==> !Listens(ws[i], slot)
  }

  predicate WaitsWithin(ws: seq<Wait>, n: int)
  {
    forall i :: 0 <= i < |ws| ==> 0 <= ws[i].slot < n
  }

  /** What one listener does with an update it hears: the wait it leaves
      behind (if any), the flags, the promise it settles, whether it threw. */
  datatype Heard = Heard(kept: seq<Wait>, pending: seq<bool>, settled: seq<Settlement>, threw: bool)

  /** One listener of `w.slot` hears `newItem`. A rejection listener is
      one-shot: it is removed before it runs. It compares item types and, when
      they differ, clears the flag and rejects; when either side is empty it
      dereferences null and throws a TypeError. An acknowledgement listener
      stays registered until an update matches; then the flag is cleared and the
      call resolves. */
  function Hear(w: Wait, pending: seq<bool>, newItem: Stack): (h: Heard)
    requires 0 <= w.slot < |pending|
    ensures |h.pending| == |pending| && |h.kept| <= 1
    ensures forall i :: 0 <= i < |h.kept| ==> h.kept[i].slot == w.slot
  {
    if w.kind.Ack? then
      if AckMatch(w.item, newItem) then Heard([], pending[w.slot := false], [Settled(w.id, Resolved)], false)
      else Heard([w], pending, [], false)
    else
      var consumed := w.(kind := Window(false, w.kind.rejected));
      if newItem.None? || w.item.None? then Heard([consumed], pending, [], true)
      else if newItem.value.itemId != w.item.value.itemId then
        Heard([w.(kind := Window(false, true))], pending[w.slot := false], [Settled(w.id, Failed(ServerRejected))], false)
      else Heard([consumed], pending, [], false)
  }

  datatype Emitted = Emitted(waits: seq<Wait>, pending: seq<bool>, settled: seq<Settlement>, threw: bool)

  /** Delivery of one `updateSlot:<slot>` event to the listeners in `ws`, in
      registration order. A listener that throws ends the delivery: the
      exception leaves the emitter and the later listeners are not called. */
  function Emit(ws: seq<Wait>, pending: seq<bool>, slot: int, newItem: Stack): (r: Emitted)
    requires WaitsWithin(ws, |pending|)
    ensures |r.pending| == |pending| && WaitsWithin(r.waits, |pending|)
    decreases |ws|
  {
    if ws == [] then Emitted([], pending, [], false)
    else
      if !Listens(ws[0], slot) then
        var rest := Emit(ws[1..], pending, slot, newItem);
        rest.(waits := [ws[0]] + rest.waits)
      else
        var h := Hear(ws[0], pending, newItem);
        if h.threw then Emitted(h.kept + ws[1..], h.pending, h.settled, true)
        else
          var rest := Emit(ws[1..], h.pending, slot, newItem);
          Emitted(h.kept + rest.waits, rest.pending, h.settled + rest.settled, rest.threw)
  }

  /** The result of an event: the new state, the promises it settled, and
      whether a listener threw out of the emitter. */
  datatype Event = Event(state: State, settled: seq<Settlement>, threw: bool)

  /** The inventory reports `newItem` in `slot` (a slot update from the host,
      or the plugin's own local write): the slot takes the value, then the
      listeners of that slot hear it. */
  function OnUpdateSlot(s: State, slot: int, newItem: Stack): (r: Event)
    requires Valid(s) && 0 <= slot < |s.slots|
    ensures Valid(r.state) && |r.state.slots| == |s.slots|
  {
    var e := Emit(s.waits, s.pending, slot, newItem);
    Event(s.(slots := s.slots[slot := newItem], pending := e.pending, waits := e.waits), e.settled, e.threw)
  }

  datatype Expired = Expired(pending: seq<bool>, settled: seq<Settlement>)

  /** The timer of wait `w` expires. In the unacknowledged protocol the timer
      removes the listener, clears the slot's flag and resolves (a no-op on a
      promise already rejected). In the acknowledged protocol the wait fails
      with a timeout and the flag is left as it is, because the statement after
      the failed await is skipped. */
  function Expire(w: Wait, pending: seq<bool>): (e: Expired)
    requires 0 <= w.slot < |pending|
    ensures |e.pending| == |pending|
  {
    match w.kind
    case Window(_, rejected) =>
      Expired(pending[w.slot := false], if rejected then [] else [Settled(w.id, Resolved)])
    case Ack =>
      Expired(pending, [Settled(w.id, Failed(TimedOut))])
  }

  datatype Fired = Fired(waits: seq<Wait>, pending: seq<bool>, settled: seq<Settlement>)

  /** The timer of call `id` expires and its wait goes away; without such a
      timer nothing happens. */
  function Fire(ws: seq<Wait>, pending: seq<bool>, id: nat): (r: Fired)
    requires WaitsWithin(ws, |pending|)
    ensures |r.pending| == |pending| && WaitsWithin(r.waits, |pending|)
    decreases |ws|
  {
    if ws == [] then Fired([], pending, [])
    else if ws[0].id != id then
      var rest := Fire(ws[1..], pending, id);
      rest.(waits := [ws[0]] + rest.waits)
    else
      var e := Expire(ws[0], pending);
      Fired(ws[1..], e.pending, e.settled)
  }

  /** The timer of call `id` fires. */
  function OnTimeout(s: State, id: nat): (r: Event)
    requires Valid(s)
    ensures Valid(r.state)
  {
    var f := Fire(s.waits, s.pending, id);
    Event(s.(pending := f.pending, waits := f.waits), f.settled, false)
  }

  /** The guards of setInventorySlot all pass: the slot is in range, does not
      already hold the item, and has no pending mutation. */
  predicate Proceeds(s: State, slot: int, item: Stack)
    requires Valid(s)
    ensures Proceeds(s, slot, item) ==> InRange(slot) && !s.pending[slot] && s.slots[slot] != item
  {
    InRange(slot) && !SameStack(s.slots[slot], item) && !s.pending[slot]
  }

  datatype Began = Began(state: State, reply: Reply, settled: seq<Settlement>)

  /** The synchronous part of `setInventorySlot(slot, item, waitTimeout)`, for a
      host that does (`noAck == false`) or does not (`noAck`) acknowledge the
      packet. In the unacknowledged protocol the local write is an inventory
      update that listeners registered earlier hear, before this call's own
      listener is registered; a listener that throws there makes the call
      fail with that exception, with the flag still set. */
  function Begin(s: State, noAck: bool, slot: int, item: Stack, waitTimeout: int): (r: Began)
    requires Valid(s)
    ensures Valid(r.state)
  {
    if !InRange(slot) then Began(s, Now(Failed(InvalidSlot)), [])
    else if SameStack(s.slots[slot], item) then Began(s, Now(Resolved), [])
    else if s.pending[slot] then Began(s, Now(Failed(Conflict(slot))), [])
    else
      var sent := s.(pending := s.pending[slot := true], outbox := s.outbox + [Request(slot, item)]);
      if noAck then
        var local := OnUpdateSlot(sent, slot, item);
        if local.threw then Began(local.state, Now(Failed(ListenerThrew)), local.settled)
        else if waitTimeout == 0 then Began(local.state, Now(Resolved), local.settled)
        else
          var w := Wait(s.nextId, slot, item, Window(true, false));
          Began(local.state.(waits := local.state.waits + [w], nextId := s.nextId + 1), Waiting(s.nextId), local.settled)
      else
        var w := Wait(s.nextId, slot, item, Ack);
        Began(sent.(waits := sent.waits + [w], nextId := s.nextId + 1), Waiting(s.nextId), [])
  }
}
