/** On a host that acknowledges `set_creative_slot` the pending flags keep the
    promise of the guard: at most one call per slot is outstanding, and a slot
    with an outstanding call has its flag set, so a second call on it fails
    with a conflict. */
module AckMode {
  import opened Items
  import opened SlotSync
  import opened Delivery
  import opened Steps

  predicate AllAck(ws: seq<Wait>)
  {
    forall a :: 0 <= a < |ws| ==> ws[a].kind.Ack?
  }

  predicate AckInvariant(s: State)
  {
    Valid(s) && AllAck(s.waits) && DistinctSlots(s.waits) && Flagged(s.waits, s.pending)
  }

  lemma AckInitial(slots: seq<Stack>)
    requires |slots| >= SlotCount
    ensures AckInvariant(Initial(slots))
  {
  }

  /** A call either stops at a guard or adds the only wait of its slot; while
      a call on a slot is outstanding, a second call on it is turned away by a
      guard and changes nothing. */
  lemma AckBegin(s: State, slot: int, item: Stack, waitTimeout: int)
    requires AckInvariant(s)
    ensures var r := Begin(s, false, slot, item, waitTimeout);
            && AckInvariant(r.state)
            && (forall a :: 0 <= a < |s.waits| && s.waits[a].slot == slot ==>
                  r.state == s && (r.reply == Now(Resolved) || r.reply == Now(Failed(Conflict(slot)))))
  {
    BeginGuards(s, false, slot, item, waitTimeout);
    BeginAck(s, slot, item, waitTimeout);
    var r := Begin(s, false, slot, item, waitTimeout);
    if Proceeds(s, slot, item) {
      assert NoWaitOn(s.waits, slot);
      assert DistinctSlots(r.state.waits) by {
        var ws := r.state.waits;
        forall a, b | 0 <= a < b < |ws| ensures ws[a].slot != ws[b].slot {
          if b == |ws| - 1 {
            assert ws[a] == s.waits[a];
          } else {
            assert ws[a] == s.waits[a] && ws[b] == s.waits[b];
          }
        }
      }
    }
  }

  /** An update of a slot settles its outstanding call exactly when it matches
      the requested item by name, count and metadata; the flag is cleared and
      the wait removed then and only then. A slot without a call is unaffected. */
  lemma AckUpdate(s: State, slot: int, newItem: Stack)
    requires AckInvariant(s) && 0 <= slot < |s.slots|
    ensures var r := OnUpdateSlot(s, slot, newItem);
            && AckInvariant(r.state) && !r.threw
            && (NoWaitOn(s.waits, slot) ==>
                  r.settled == [] && r.state.pending == s.pending && r.state.waits == s.waits)
            && (forall a :: 0 <= a < |s.waits| && s.waits[a].slot == slot ==>
                  var w := s.waits[a];
                  if AckMatch(w.item, newItem) then
                    && r.settled == [Settled(w.id, Resolved)]
                    && r.state.pending == s.pending[slot := false]
                    && r.state.waits == Without(s.waits, a)
                  else
                    r.settled == [] && r.state.pending == s.pending && r.state.waits == s.waits)
  {
    UpdateFrame(s, slot, newItem);
    if !NoWaitOn(s.waits, slot) {
      var i :| 0 <= i < |s.waits| && s.waits[i].slot == slot;
      AckHeard(s, slot, newItem, i);
    }
  }

  /** The one wait of the slot hears the update. */
  lemma AckHeard(s: State, slot: int, newItem: Stack, i: nat)
    requires AckInvariant(s) && 0 <= slot < |s.slots| && i < |s.waits| && s.waits[i].slot == slot
    ensures var r := OnUpdateSlot(s, slot, newItem);
            var w := s.waits[i];
            && AckInvariant(r.state) && !r.threw
            && if AckMatch(w.item, newItem) then
                 && r.settled == [Settled(w.id, Resolved)]
                 && r.state.pending == s.pending[slot := false]
                 && r.state.waits == Without(s.waits, i)
               else
                 r.settled == [] && r.state.pending == s.pending && r.state.waits == s.waits
  {
    var ws := s.waits;
    assert forall k :: 0 <= k < |ws| && k != i ==> !Listens(ws[k], slot);
    EmitOneListener(ws, s.pending, slot, newItem, i);
    var h := Hear(ws[i], s.pending, newItem);
    Splice(ws, i, h.kept);
    if AckMatch(ws[i].item, newItem) {
      AckRemove(s, i);
    } else {
      assert ws[i := ws[i]] == ws;
    }
  }

  /** Removing the wait at `i` and clearing its slot's flag keeps the invariant. */
  lemma AckRemove(s: State, i: nat)
    requires AckInvariant(s) && i < |s.waits|
    ensures AckInvariant(s.(pending := s.pending[s.waits[i].slot := false], waits := Without(s.waits, i)))
  {
  }

  /** The timer of an outstanding call fails it with a timeout and removes its
      wait, and leaves every flag as it was: the flag of the timed-out slot
      stays set. */
  lemma AckTimeout(s: State, id: nat)
    requires AckInvariant(s)
    ensures var r := OnTimeout(s, id);
            && AckInvariant(r.state)
            && r.state.pending == s.pending
            && r.settled == (if FirstWithId(s.waits, id) >= 0 then [Settled(id, Failed(TimedOut))] else [])
  {
    TimeoutEffect(s, id);
  }
}
