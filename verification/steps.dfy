/** What one call of setInventorySlot, one slot update and one timer do to the
    whole state, in the terms the source's callers see: replies, flags, the
    local inventory, the packets sent and the outstanding waits. */
module Steps {
  import opened Items
  import opened SlotSync
  import opened Delivery

  /** The three guards, in the source's order: an index outside 0..44 fails
      the assertion, a slot already holding the item succeeds at once, a slot
      with a pending mutation fails with a conflict naming it. None of them
      changes anything or settles anything. */
  lemma BeginGuards(s: State, noAck: bool, slot: int, item: Stack, waitTimeout: int)
    requires Valid(s)
    ensures var r := Begin(s, noAck, slot, item, waitTimeout);
            && (!InRange(slot) ==> r == Began(s, Now(Failed(InvalidSlot)), []))
            && (InRange(slot) && SameStack(s.slots[slot], item) ==> r == Began(s, Now(Resolved), []))
            && (InRange(slot) && !SameStack(s.slots[slot], item) && s.pending[slot] ==>
                  r == Began(s, Now(Failed(Conflict(slot))), []))
  {
  }

  /** A slot update writes the slot and leaves the rest of the inventory, the
      packets and the call numbering alone; it changes no other slot's flag
      and can only clear its own. Unheard, it changes nothing else. */
  lemma UpdateFrame(s: State, slot: int, newItem: Stack)
    requires Valid(s) && 0 <= slot < |s.slots|
    ensures var r := OnUpdateSlot(s, slot, newItem);
            && r.state.slots == s.slots[slot := newItem]
            && r.state.outbox == s.outbox && r.state.nextId == s.nextId
            && (forall j :: 0 <= j < SlotCount && j != slot ==> r.state.pending[j] == s.pending[j])
            && (InRange(slot) && r.state.pending[slot] ==> s.pending[slot])
            && (NoListener(s.waits, slot) ==>
                  r.settled == [] && !r.threw && r.state.waits == s.waits && r.state.pending == s.pending)
  {
    EmitFlags(s.waits, s.pending, slot, newItem);
    if NoListener(s.waits, slot) {
      EmitSilent(s.waits, s.pending, slot, newItem);
    }
  }

  /** A slot update heard by one listener only, the one at `i`: the flags
      and settlements are that listener's, and its wait is removed or
      replaced in place. */
  lemma OneListenerUpdate(s: State, slot: int, newItem: Stack, i: nat)
    requires Valid(s) && 0 <= slot < |s.slots| && i < |s.waits| && Listens(s.waits[i], slot)
    requires forall k :: 0 <= k < |s.waits| && k != i ==> !Listens(s.waits[k], slot)
    ensures 0 <= s.waits[i].slot < |s.pending|
    ensures var r := OnUpdateSlot(s, slot, newItem);
            var h := Hear(s.waits[i], s.pending, newItem);
            && r.state.pending == h.pending && r.settled == h.settled && r.threw == h.threw
            && (h.kept == [] ==> r.state.waits == Without(s.waits, i))
            && (|h.kept| == 1 ==> r.state.waits == s.waits[i := h.kept[0]])
  {
    EmitOneListener(s.waits, s.pending, slot, newItem, i);
    Splice(s.waits, i, Hear(s.waits[i], s.pending, newItem).kept);
  }

  /** Unacknowledged protocol: the one rejection listener of a slot hears an
      update. The slot keeps the reported stack whatever happens, and the
      listener is gone afterwards, so only the first update is inspected. A
      stack of a different item type rejects the call and clears the flag; one
      of the same type settles nothing; an empty stack on either side makes
      the listener throw, with the flag left set. */
  lemma NoAckHeard(s: State, slot: int, newItem: Stack, i: nat)
    requires Valid(s) && 0 <= slot < |s.slots| && i < |s.waits|
    requires Listens(s.waits[i], slot) && s.waits[i].kind.Window?
    requires forall k :: 0 <= k < |s.waits| && k != i ==> !Listens(s.waits[k], slot)
    ensures var r := OnUpdateSlot(s, slot, newItem);
            var w := s.waits[i];
            var consumed := w.(kind := Window(false, w.kind.rejected));
            && r.state.slots[slot] == newItem
            && NoListener(r.state.waits, slot)
            && (newItem.None? || w.item.None? ==>
                  && r.threw && r.settled == [] && r.state.pending == s.pending
                  && r.state.waits == s.waits[i := consumed])
            && (newItem.Some? && w.item.Some? && newItem.value.itemId != w.item.value.itemId ==>
                  && !r.threw && r.settled == [Settled(w.id, Failed(ServerRejected))]
                  && r.state.pending == s.pending[slot := false]
                  && r.state.waits == s.waits[i := w.(kind := Window(false, true))])
            && (newItem.Some? && w.item.Some? && newItem.value.itemId == w.item.value.itemId ==>
                  && !r.threw && r.settled == [] && r.state.pending == s.pending
                  && r.state.waits == s.waits[i := consumed])
  {
    var ws := s.waits;
    OneListenerUpdate(s, slot, newItem, i);
    var r := OnUpdateSlot(s, slot, newItem);
    forall k | 0 <= k < |r.state.waits| ensures !Listens(r.state.waits[k], slot) {
      if k != i {
        assert r.state.waits[k] == ws[k];
      }
    }
  }

  /** Once the guards pass, exactly one packet, for this slot and item, is
      sent; in either protocol no other slot's flag or content changes, and the
      flag of the slot is set unless a listener registered earlier clears it. */
  lemma BeginSends(s: State, noAck: bool, slot: int, item: Stack, waitTimeout: int)
    requires Valid(s)
    ensures var r := Begin(s, noAck, slot, item, waitTimeout);
            && r.state.outbox == s.outbox + (if Proceeds(s, slot, item) then [Request(slot, item)] else [])
            && |r.state.slots| == |s.slots|
            && (forall j :: 0 <= j < |s.slots| && j != slot ==> r.state.slots[j] == s.slots[j])
            && (forall j :: 0 <= j < SlotCount && j != slot ==> r.state.pending[j] == s.pending[j])
            && (Proceeds(s, slot, item) && NoListener(s.waits, slot) ==> r.state.pending[slot])
  {
    if Proceeds(s, slot, item) {
      var sent := s.(pending := s.pending[slot := true], outbox := s.outbox + [Request(slot, item)]);
      UpdateFrame(sent, slot, item);
    }
  }

  /** Acknowledged protocol: past the guards the call waits, with its flag
      set, for an update of its slot; the local inventory is left to the host. */
  lemma BeginAck(s: State, slot: int, item: Stack, waitTimeout: int)
    requires Valid(s)
    ensures var r := Begin(s, false, slot, item, waitTimeout);
            && r.state.slots == s.slots && r.settled == []
            && (r.reply.Waiting? <==> Proceeds(s, slot, item))
            && (Proceeds(s, slot, item) ==>
                  && r.reply == Waiting(s.nextId) && r.state.nextId == s.nextId + 1
                  && r.state.pending == s.pending[slot := true]
                  && r.state.waits == s.waits + [Wait(s.nextId, slot, item, Ack)])
  {
    BeginGuards(s, false, slot, item, waitTimeout);
  }

  /** Unacknowledged protocol: past the guards the slot holds the item before
      any wait. With a wait of 0 the call succeeds at once, with its flag left
      set; otherwise it waits with a fresh rejection window. A listener of an
      earlier call that hears the local write and throws makes the call fail. */
  lemma BeginNoAck(s: State, slot: int, item: Stack, waitTimeout: int)
    requires Valid(s) && Proceeds(s, slot, item)
    ensures var r := Begin(s, true, slot, item, waitTimeout);
            && r.state.slots[slot] == item
            && (r.reply == Now(Failed(ListenerThrew)) ||
                (waitTimeout == 0 && r.reply == Now(Resolved) && r.state.nextId == s.nextId) ||
                (waitTimeout != 0 && r.reply == Waiting(s.nextId) && r.state.nextId == s.nextId + 1))
            && (NoListener(s.waits, slot) ==>
                  && r.settled == [] && r.state.pending == s.pending[slot := true]
                  && r.state.waits ==
                       s.waits + (if waitTimeout == 0 then [] else [Wait(s.nextId, slot, item, Window(true, false))])
                  && r.reply == (if waitTimeout == 0 then Now(Resolved) else Waiting(s.nextId)))
  {
    var sent := s.(pending := s.pending[slot := true], outbox := s.outbox + [Request(slot, item)]);
    UpdateFrame(sent, slot, item);
    if NoListener(s.waits, slot) {
      assert s.pending[slot := true][slot := true] == s.pending[slot := true];
    }
  }

  /** The timer of call `id` removes that call's first outstanding wait and
      nothing else. An unacknowledged window clears the flag of its slot and
      resolves (unless already rejected); an acknowledged wait fails with a
      timeout and leaves the flag as it is. Without such a wait, nothing
      happens. */
  lemma TimeoutEffect(s: State, id: nat)
    requires Valid(s)
    ensures var r := OnTimeout(s, id);
            var p := FirstWithId(s.waits, id);
            && !r.threw && r.state.slots == s.slots
            && r.state.outbox == s.outbox && r.state.nextId == s.nextId
            && (p == -1 ==> r.state == s && r.settled == [])
            && (p >= 0 ==>
                  var w := s.waits[p];
                  && r.state.waits == Without(s.waits, p)
                  && (w.kind.Ack? ==>
                        r.state.pending == s.pending && r.settled == [Settled(id, Failed(TimedOut))])
                  && (w.kind.Window? ==>
                        && r.state.pending == s.pending[w.slot := false]
                        && r.settled == (if w.kind.rejected then [] else [Settled(id, Resolved)])))
  {
    FireAt(s.waits, s.pending, id);
  }
}
