/** Two exits of setInventorySlot leave a slot's pending flag set with nothing
    left that could clear it: the unacknowledged call with a wait of 0, and
    the acknowledged call whose wait times out. From then on every call that
    would change the slot fails with a conflict, whatever happens. */
module Lockout {
  import opened Items
  import opened SlotSync
  import opened Delivery
  import opened Steps
  import opened AckMode

  /** Slot `j` is flagged as pending but no listener or timer remains that
      could clear the flag. */
  predicate Stuck(s: State, j: int)
    requires Valid(s)
  {
    InRange(j) && s.pending[j] && NoWaitOn(s.waits, j)
  }

  /** Everything that can happen to the plugin, one event at a time. */
  datatype Step =
    | Call(slot: int, item: Stack, waitTimeout: int)
    | Update(slot: int, newItem: Stack)
    | Timer(id: nat)

  /** The state after the events of `steps`, in order; an update of a slot
      the inventory does not have is ignored. */
  function Run(s: State, noAck: bool, steps: seq<Step>): (r: State)
    requires Valid(s)
    ensures Valid(r)
    decreases |steps|
  {
    if steps == [] then s
    else
      var next :=
        match steps[0]
        case Call(slot, item, waitTimeout) => Begin(s, noAck, slot, item, waitTimeout).state
        case Update(slot, newItem) =>
          if 0 <= slot < |s.slots| then OnUpdateSlot(s, slot, newItem).state else s
        case Timer(id) => OnTimeout(s, id).state;
      Run(next, noAck, steps[1..])
  }

  /** A stuck slot stays stuck through any call, and a call that would change
      it fails with a conflict. */
  lemma StuckBegin(s: State, noAck: bool, slot: int, item: Stack, waitTimeout: int, j: int)
    requires Valid(s) && Stuck(s, j)
    ensures var r := Begin(s, noAck, slot, item, waitTimeout);
            && Stuck(r.state, j)
            && (slot == j && !SameStack(s.slots[j], item) ==> r == Began(s, Now(Failed(Conflict(j))), []))
  {
    BeginGuards(s, noAck, slot, item, waitTimeout);
    BeginSends(s, noAck, slot, item, waitTimeout);
    if Proceeds(s, slot, item) {
      var sent := s.(pending := s.pending[slot := true], outbox := s.outbox + [Request(slot, item)]);
      if noAck {
        EmitNoWaitOn(sent.waits, sent.pending, slot, item, j);
      }
    }
  }

  /** A stuck slot stays stuck through any slot update. */
  lemma StuckUpdate(s: State, slot: int, newItem: Stack, j: int)
    requires Valid(s) && Stuck(s, j) && 0 <= slot < |s.slots|
    ensures Stuck(OnUpdateSlot(s, slot, newItem).state, j)
  {
    UpdateFrame(s, slot, newItem);
    EmitNoWaitOn(s.waits, s.pending, slot, newItem, j);
  }

  /** A stuck slot stays stuck through any timer. */
  lemma StuckTimeout(s: State, id: nat, j: int)
    requires Valid(s) && Stuck(s, j)
    ensures Stuck(OnTimeout(s, id).state, j)
  {
    TimeoutEffect(s, id);
    var p := FirstWithId(s.waits, id);
    if p >= 0 {
      WithoutNoWaitOn(s.waits, p, j);
    }
  }

  /** A stuck slot stays stuck for ever. */
  lemma {:induction false} StuckForever(s: State, noAck: bool, steps: seq<Step>, j: int)
    requires Valid(s) && Stuck(s, j)
    ensures Stuck(Run(s, noAck, steps), j)
    decreases |steps|
  {
    if steps != [] {
      match steps[0]
      case Call(slot, item, waitTimeout) =>
        StuckBegin(s, noAck, slot, item, waitTimeout, j);
        StuckForever(Begin(s, noAck, slot, item, waitTimeout).state, noAck, steps[1..], j);
      case Update(slot, newItem) =>
        if 0 <= slot < |s.slots| {
          StuckUpdate(s, slot, newItem, j);
          StuckForever(OnUpdateSlot(s, slot, newItem).state, noAck, steps[1..], j);
        } else {
          StuckForever(s, noAck, steps[1..], j);
        }
      case Timer(id) =>
        StuckTimeout(s, id, j);
        StuckForever(OnTimeout(s, id).state, noAck, steps[1..], j);
    }
  }

  /** As written: an unacknowledged call with a wait of 0 on a slot without
      waits succeeds at once and leaves the slot stuck. */
  lemma ZeroWaitLocks(s: State, slot: int, item: Stack)
    requires Valid(s) && Proceeds(s, slot, item) && NoWaitOn(s.waits, slot)
    ensures var r := Begin(s, true, slot, item, 0);
            r.reply == Now(Resolved) && Stuck(r.state, slot)
  {
    BeginNoAck(s, slot, item, 0);
  }

  /** As written: in the acknowledged protocol the timer of an outstanding
      call leaves its slot stuck. */
  lemma AckTimeoutLocks(s: State, id: nat)
    requires AckInvariant(s) && FirstWithId(s.waits, id) >= 0
    ensures var p := FirstWithId(s.waits, id);
            var r := OnTimeout(s, id);
            && r.settled == [Settled(id, Failed(TimedOut))]
            && Stuck(r.state, s.waits[p].slot)
  {
    TimeoutEffect(s, id);
    AckTimeout(s, id);
  }

  /** The two exits, from a fresh connection: after the first call on a slot
      the slot is stuck, and any later call that would change it, after any
      events whatever, fails with a conflict. */
  lemma LockedAfterFirstCall(slots: seq<Stack>, noAck: bool, slot: int, item: Stack, steps: seq<Step>, later: Stack)
    requires |slots| >= SlotCount && InRange(slot) && !SameStack(slots[slot], item)
    ensures var s0 := Initial(slots);
            var b := Begin(s0, noAck, slot, item, 0);
            var idOf := s0.nextId;
            var s1 := if noAck then b.state else OnTimeout(b.state, idOf).state;
            var s2 := Run(s1, noAck, steps);
            !SameStack(s2.slots[slot], later) ==>
              Begin(s2, noAck, slot, later, 0).reply == Now(Failed(Conflict(slot)))
  {
    var s0 := Initial(slots);
    var b := Begin(s0, noAck, slot, item, 0);
    var s1 := if noAck then b.state else OnTimeout(b.state, s0.nextId).state;
    if noAck {
      ZeroWaitLocks(s0, slot, item);
    } else {
      AckInitial(slots);
      AckBegin(s0, slot, item, 0);
      BeginAck(s0, slot, item, 0);
      assert b.state.waits == [Wait(0, slot, item, Ack)];
      AckTimeoutLocks(b.state, 0);
    }
    StuckForever(s1, noAck, steps, slot);
    var s2 := Run(s1, noAck, steps);
    StuckBegin(s2, noAck, slot, later, 0, slot);
  }
}
