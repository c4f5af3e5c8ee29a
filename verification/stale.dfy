/** In the unacknowledged protocol the rejection listener clears the flag and
    rejects, but the timer of the same call stays armed. When it fires later it
    clears the flag again, now on behalf of a newer call that is still
    waiting: the guard then admits a third call on the slot, whose local write
    makes the newer call fail as if the host had rejected it. */
module StaleTimer {
  import opened Items
  import opened SlotSync
  import opened Delivery
  import opened Steps
  import opened Corrected

  const Stone: Item := Item(1, "stone", 1, 0, "")
  const Dirt: Item := Item(3, "dirt", 1, 0, "")
  const Sand: Item := Item(12, "sand", 1, 0, "")
  const Slot: int := 36

  function EmptyInventory(): (slots: seq<Stack>)
    ensures |slots| == SlotCount && forall j :: 0 <= j < SlotCount ==> slots[j] == None
  {
    seq(SlotCount, _ => None)
  }

  /** As written, from a fresh connection with an empty inventory:
      1. call 0 sets stone in the slot and waits 400 ms;
      2. the host reports dirt: call 0 is rejected, its flag cleared;
      3. call 1 sets sand and waits, with the flag set again;
      4. call 0's timer fires: it clears the flag although call 1 waits;
      5. call 2 on the same slot is admitted instead of failing with a
         conflict, and its local write rejects call 1. */
  lemma StaleTimerAdmitsSecondCall()
    ensures var s0 := Initial(EmptyInventory());
            var b1 := Begin(s0, true, Slot, Some(Stone), DefaultWaitTimeout);
            var e2 := OnUpdateSlot(b1.state, Slot, Some(Dirt));
            var b3 := Begin(e2.state, true, Slot, Some(Sand), DefaultWaitTimeout);
            var e4 := OnTimeout(b3.state, 0);
            var b5 := Begin(e4.state, true, Slot, Some(Stone), DefaultWaitTimeout);
            && b1.reply == Waiting(0)
            && e2.settled == [Settled(0, Failed(ServerRejected))]
            && b3.reply == Waiting(1)
            && e4.settled == [] && !e4.state.pending[Slot]
            && e4.state.waits == [Wait(1, Slot, Some(Sand), Window(true, false))]
            && b5.reply == Waiting(2)
            && b5.settled == [Settled(1, Failed(ServerRejected))]
  {
    var s0 := Initial(EmptyInventory());
    BeginNoAck(s0, Slot, Some(Stone), DefaultWaitTimeout);
    var b1 := Begin(s0, true, Slot, Some(Stone), DefaultWaitTimeout);
    var w0 := Wait(0, Slot, Some(Stone), Window(true, false));
    assert b1.state.waits == [w0];

    EmitOneListener(b1.state.waits, b1.state.pending, Slot, Some(Dirt), 0);
    var e2 := OnUpdateSlot(b1.state, Slot, Some(Dirt));
    var w0r := w0.(kind := Window(false, true));
    assert e2.state.waits == [w0r];
    assert !e2.state.pending[Slot];
    UpdateFrame(b1.state, Slot, Some(Dirt));

    BeginNoAck(e2.state, Slot, Some(Sand), DefaultWaitTimeout);
    var b3 := Begin(e2.state, true, Slot, Some(Sand), DefaultWaitTimeout);
    var w1 := Wait(1, Slot, Some(Sand), Window(true, false));
    assert b3.state.waits == [w0r, w1];

    TimeoutEffect(b3.state, 0);
    var e4 := OnTimeout(b3.state, 0);
    assert FirstWithId(b3.state.waits, 0) == 0;
    assert e4.state.waits == [w1];

    var sent := e4.state.(pending := e4.state.pending[Slot := true],
                          outbox := e4.state.outbox + [Request(Slot, Some(Stone))]);
    EmitOneListener(sent.waits, sent.pending, Slot, Some(Stone), 0);
  }

  /** Corrected, the same events: the rejection cancels call 0's timer, so
      its timer never fires, the flag stays set for call 1, and call 2 on the
      slot fails with a conflict without touching call 1. */
  lemma CorrectedTurnsAwaySecondCall()
    ensures var s0 := Initial(EmptyInventory());
            var b1 := BeginFixed(s0, true, Slot, Some(Stone), DefaultWaitTimeout);
            var e2 := OnUpdateSlotFixed(b1.state, Slot, Some(Dirt));
            var b3 := BeginFixed(e2.state, true, Slot, Some(Sand), DefaultWaitTimeout);
            var e4 := OnTimeoutFixed(b3.state, 0);
            var b5 := BeginFixed(e4.state, true, Slot, Some(Stone), DefaultWaitTimeout);
            && b1.reply == Waiting(0)
            && e2.settled == [Settled(0, Failed(ServerRejected))]
            && b3.reply == Waiting(1)
            && e4.settled == [] && e4.state.pending[Slot]
            && b5 == Began(e4.state, Now(Failed(Conflict(Slot))), [])
  {
    var s0 := Initial(EmptyInventory());
    BeginNoAck(s0, Slot, Some(Stone), DefaultWaitTimeout);
    var b1 := BeginFixed(s0, true, Slot, Some(Stone), DefaultWaitTimeout);
    var w0 := Wait(0, Slot, Some(Stone), Window(true, false));
    assert b1.state.waits == [w0];

    EmitOneListener(b1.state.waits, b1.state.pending, Slot, Some(Dirt), 0);
    var e2 := OnUpdateSlotFixed(b1.state, Slot, Some(Dirt));
    var w0r := w0.(kind := Window(false, true));
    LiveOne([w0r], 0);
    assert e2.state.waits == [];
    UpdateFrame(b1.state, Slot, Some(Dirt));

    BeginNoAck(e2.state, Slot, Some(Sand), DefaultWaitTimeout);
    var b3 := BeginFixed(e2.state, true, Slot, Some(Sand), DefaultWaitTimeout);
    var w1 := Wait(1, Slot, Some(Sand), Window(true, false));
    assert b3.state.waits == [w1];

    TimeoutEffect(b3.state, 0);
    var e4 := OnTimeoutFixed(b3.state, 0);
    assert FirstWithId(b3.state.waits, 0) == -1;
    BeginGuards(e4.state, true, Slot, Some(Stone), DefaultWaitTimeout);
  }
}
