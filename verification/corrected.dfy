/** The protocol with every exit clearing its flag, as the rejection
    listener, the window timer and the acknowledged success path already do
    (lines 45, 52 and 62 of lib/plugins/creative.js), and as the warning above
    setInventorySlot (line 23) expects, since it allows a second call on a slot
    once the first promise succeeds: a pending flag is set exactly while its
    slot has an outstanding call. Three changes to the code as written give
    that: the unacknowledged call with a wait of 0 clears its flag, a rejection
    also cancels the call's timer, and an acknowledged call that times out
    clears its flag. Everything else is the code as written. */
module Corrected {
  import opened Items
  import opened SlotSync
  import opened Delivery
  import opened Steps
  import opened Lockout

  /** An unacknowledged window whose promise was already rejected. */
  predicate Rejected(w: Wait)
  {
    w.kind.Window? && w.kind.rejected
  }

  predicate NoneRejected(ws: seq<Wait>)
  {
    forall a :: 0 <= a < |ws| ==> !Rejected(ws[a])
  }

  /** The waits that remain once a rejection also cancels its call's timer. */
  function Live(ws: seq<Wait>): (r: seq<Wait>)
    ensures NoneRejected(r)
    ensures WaitsWithin(ws, SlotCount) ==> WaitsWithin(r, SlotCount)
    decreases |ws|
  {
    if ws == [] then []
    else if Rejected(ws[0]) then Live(ws[1..])
    else [ws[0]] + Live(ws[1..])
  }

  lemma {:induction false} LiveNone(ws: seq<Wait>)
    requires NoneRejected(ws)
    ensures Live(ws) == ws
    decreases |ws|
  {
    if ws != [] {
      assert NoneRejected(ws[1..]) by {
        forall k | 0 <= k < |ws[1..]| ensures !Rejected(ws[1..][k]) {
          assert ws[1..][k] == ws[k + 1];
        }
      }
      LiveNone(ws[1..]);
    }
  }

  lemma {:induction false} LiveOne(ws: seq<Wait>, i: nat)
    requires i < |ws| && Rejected(ws[i])
    requires forall k :: 0 <= k < |ws| && k != i ==> !Rejected(ws[k])
    ensures Live(ws) == Without(ws, i)
    decreases i
  {
    if i == 0 {
      LiveNone(ws[1..]);
      assert Without(ws, 0) == ws[1..];
    } else {
      var tail := ws[1..];
      assert tail[i - 1] == ws[i];
      assert forall k :: 0 <= k < |tail| && k != i - 1 ==> !Rejected(tail[k]) by {
        forall k | 0 <= k < |tail| && k != i - 1 ensures !Rejected(tail[k]) {
          assert tail[k] == ws[k + 1];
        }
      }
      LiveOne(tail, i - 1);
      WithoutCons(ws, i);
    }
  }

  /** setInventorySlot, corrected: a call that does not wait clears its flag. */
  function BeginFixed(s: State, noAck: bool, slot: int, item: Stack, waitTimeout: int): (r: Began)
    requires Valid(s)
    ensures Valid(r.state)
  {
    var r := Begin(s, noAck, slot, item, waitTimeout);
    if noAck && waitTimeout == 0 && Proceeds(s, slot, item) && r.reply == Now(Resolved)
    then r.(state := r.state.(pending := r.state.pending[slot := false]))
    else r
  }

  /** A slot update, corrected: a rejection also cancels its call's timer. */
  function OnUpdateSlotFixed(s: State, slot: int, newItem: Stack): (r: Event)
    requires Valid(s) && 0 <= slot < |s.slots|
    ensures Valid(r.state)
  {
    var r := OnUpdateSlot(s, slot, newItem);
    r.(state := r.state.(waits := Live(r.state.waits)))
  }

  /** A timer, corrected: an acknowledged call that times out clears its flag. */
  function OnTimeoutFixed(s: State, id: nat): (r: Event)
    requires Valid(s)
    ensures Valid(r.state)
  {
    var r := OnTimeout(s, id);
    var p := FirstWithId(s.waits, id);
    if p >= 0 && s.waits[p].kind.Ack?
    then r.(state := r.state.(pending := r.state.pending[s.waits[p].slot := false]))
    else r
  }

  /** Every flagged slot has an outstanding wait. */
  predicate Covered(s: State)
    requires Valid(s)
  {
    forall j :: 0 <= j < SlotCount && NoWaitOn(s.waits, j) ==> !s.pending[j]
  }

  /** The flags mirror the outstanding calls: one wait per slot at most, its
      slot flagged, and no flag without a wait. */
  predicate Mirrors(s: State)
  {
    Valid(s) && DistinctSlots(s.waits) && Flagged(s.waits, s.pending) && NoneRejected(s.waits) && Covered(s)
  }

  /** The corrected protocol never leaves a slot stuck. */
  lemma MirrorsNeverStuck(s: State, j: int)
    requires Mirrors(s)
    ensures !Stuck(s, j)
  {
  }

  lemma MirrorsInitial(slots: seq<Stack>)
    requires |slots| >= SlotCount
    ensures Mirrors(Initial(slots))
  {
  }

  /** Mirrors depends on the flags and the waits alone. */
  lemma MirrorsSame(s: State, t: State)
    requires Mirrors(s) && Valid(t) && t.pending == s.pending && t.waits == s.waits
    ensures Mirrors(t)
  {
  }

  /** A new call on a slot without waits adds its wait and its flag. */
  lemma MirrorsAppend(s: State, w: Wait, t: State)
    requires Mirrors(s) && InRange(w.slot) && NoWaitOn(s.waits, w.slot) && !Rejected(w)
    requires Valid(t) && t.pending == s.pending[w.slot := true] && t.waits == s.waits + [w]
    ensures Mirrors(t)
  {
    assert DistinctSlots(t.waits) by {
      forall a, b | 0 <= a < b < |t.waits| ensures t.waits[a].slot != t.waits[b].slot {
        assert t.waits[a] == s.waits[a];
        if b < |s.waits| { assert t.waits[b] == s.waits[b]; }
      }
    }
    assert Covered(t) by {
      forall j | 0 <= j < SlotCount && NoWaitOn(t.waits, j) ensures !t.pending[j] {
        assert t.waits[|s.waits|] == w;
        assert NoWaitOn(s.waits, j) by {
          forall a | 0 <= a < |s.waits| ensures s.waits[a].slot != j {
            assert t.waits[a] == s.waits[a];
          }
        }
      }
    }
  }

  /** A wait replaced by one of the same slot that is not rejected. */
  lemma MirrorsReplace(s: State, i: nat, x: Wait, t: State)
    requires Mirrors(s) && i < |s.waits| && x.slot == s.waits[i].slot && !Rejected(x)
    requires Valid(t) && t.pending == s.pending && t.waits == s.waits[i := x]
    ensures Mirrors(t)
  {
    assert Covered(t) by {
      forall j | 0 <= j < SlotCount && NoWaitOn(t.waits, j) ensures !t.pending[j] {
        assert NoWaitOn(s.waits, j) by {
          forall a | 0 <= a < |s.waits| ensures s.waits[a].slot != j {
            assert t.waits[a].slot == s.waits[a].slot;
          }
        }
      }
    }
  }

  /** A wait removed together with its slot's flag. */
  lemma MirrorsRemove(s: State, i: nat, t: State)
    requires Mirrors(s) && i < |s.waits|
    requires Valid(t) && t.pending == s.pending[s.waits[i].slot := false] && t.waits == Without(s.waits, i)
    ensures Mirrors(t)
  {
    var ws := s.waits;
    assert Flagged(t.waits, t.pending) by {
      forall a | 0 <= a < |t.waits|
        ensures 0 <= t.waits[a].slot < |t.pending| && t.pending[t.waits[a].slot]
      {
        if a < i { assert t.waits[a] == ws[a]; } else { assert t.waits[a] == ws[a + 1]; }
      }
    }
    assert Covered(t) by {
      forall j | 0 <= j < SlotCount && NoWaitOn(t.waits, j) ensures !t.pending[j] {
        if j != ws[i].slot {
          assert NoWaitOn(ws, j) by {
            forall a | 0 <= a < |ws| ensures ws[a].slot != j {
              if a < i { assert ws[a] == t.waits[a]; }
              else if a > i { assert ws[a] == t.waits[a - 1]; }
            }
          }
        }
      }
    }
  }

  /** A call keeps the flags mirroring the calls. While a call on the slot is
      outstanding a second one is turned away; an admitted call settles nothing
      and cannot be failed by another call's listener. */
  lemma MirrorsBegin(s: State, noAck: bool, slot: int, item: Stack, waitTimeout: int)
    requires Mirrors(s)
    ensures var r := BeginFixed(s, noAck, slot, item, waitTimeout);
            && Mirrors(r.state)
            && (forall a :: 0 <= a < |s.waits| && s.waits[a].slot == slot ==>
                  r.state == s && (r.reply == Now(Resolved) || r.reply == Now(Failed(Conflict(slot)))))
            && (Proceeds(s, slot, item) ==> r.settled == [] && r.reply != Now(Failed(ListenerThrew)))
  {
    BeginGuards(s, noAck, slot, item, waitTimeout);
    var r := BeginFixed(s, noAck, slot, item, waitTimeout);
    if Proceeds(s, slot, item) {
      assert NoWaitOn(s.waits, slot);
      assert NoListener(s.waits, slot);
      if noAck {
        BeginNoAck(s, slot, item, waitTimeout);
        if waitTimeout == 0 {
          assert r.state.pending == s.pending[slot := true][slot := false];
          assert r.state.pending == s.pending;
          MirrorsSame(s, r.state);
        } else {
          MirrorsAppend(s, Wait(s.nextId, slot, item, Window(true, false)), r.state);
        }
      } else {
        BeginAck(s, slot, item, waitTimeout);
        MirrorsAppend(s, Wait(s.nextId, slot, item, Ack), r.state);
      }
    }
  }

  /** A slot update keeps the flags mirroring the calls. */
  lemma MirrorsUpdate(s: State, slot: int, newItem: Stack)
    requires Mirrors(s) && 0 <= slot < |s.slots|
    ensures Mirrors(OnUpdateSlotFixed(s, slot, newItem).state)
  {
    var ws := s.waits;
    var r := OnUpdateSlotFixed(s, slot, newItem);
    UpdateFrame(s, slot, newItem);
    if NoListener(ws, slot) {
      LiveNone(ws);
      MirrorsSame(s, r.state);
    } else {
      var i :| 0 <= i < |ws| && Listens(ws[i], slot);
      MirrorsHeard(s, slot, newItem, i);
    }
  }

  /** The one listener of the slot hears the update. */
  lemma MirrorsHeard(s: State, slot: int, newItem: Stack, i: nat)
    requires Mirrors(s) && 0 <= slot < |s.slots| && i < |s.waits| && Listens(s.waits[i], slot)
    ensures Mirrors(OnUpdateSlotFixed(s, slot, newItem).state)
  {
    var ws := s.waits;
    var r0 := OnUpdateSlot(s, slot, newItem);
    var t := OnUpdateSlotFixed(s, slot, newItem).state;
    assert forall k :: 0 <= k < |ws| && k != i ==> !Listens(ws[k], slot);
    OneListenerUpdate(s, slot, newItem, i);
    var h := Hear(ws[i], s.pending, newItem);
    assert t.waits == Live(r0.state.waits) && t.pending == h.pending;
    if h.kept == [] {
      assert h.pending == s.pending[slot := false];
      LiveNone(Without(ws, i));
      MirrorsRemove(s, i, t);
    } else {
      var x := h.kept[0];
      assert r0.state.waits == ws[i := x];
      HeardKept(s, i, x, h.pending, t);
    }
  }

  /** The listener's wait stays, possibly rejected; a rejected one goes away
      together with its flag. */
  lemma HeardKept(s: State, i: nat, x: Wait, pending: seq<bool>, t: State)
    requires Mirrors(s) && i < |s.waits| && x.slot == s.waits[i].slot
    requires Rejected(x) ==> pending == s.pending[x.slot := false]
    requires !Rejected(x) ==> pending == s.pending
    requires Valid(t) && t.pending == pending && t.waits == Live(s.waits[i := x])
    ensures Mirrors(t)
  {
    var v := s.waits[i := x];
    if Rejected(x) {
      LiveOne(v, i);
      assert Without(v, i) == Without(s.waits, i);
      MirrorsRemove(s, i, t);
    } else {
      assert NoneRejected(v);
      LiveNone(v);
      MirrorsReplace(s, i, x, t);
    }
  }

  /** A timer keeps the flags mirroring the calls. */
  lemma MirrorsTimeout(s: State, id: nat)
    requires Mirrors(s)
    ensures Mirrors(OnTimeoutFixed(s, id).state)
  {
    TimeoutEffect(s, id);
    var p := FirstWithId(s.waits, id);
    var r := OnTimeoutFixed(s, id);
    if p == -1 {
      MirrorsSame(s, r.state);
    } else {
      MirrorsRemove(s, p, r.state);
    }
  }

  /** The state after the events of `steps` under the corrected protocol. */
  function RunFixed(s: State, noAck: bool, steps: seq<Step>): (r: State)
    requires Valid(s)
    ensures Valid(r)
    decreases |steps|
  {
    if steps == [] then s
    else
      var next :=
        match steps[0]
        case Call(slot, item, waitTimeout) => BeginFixed(s, noAck, slot, item, waitTimeout).state
        case Update(slot, newItem) =>
          if 0 <= slot < |s.slots| then OnUpdateSlotFixed(s, slot, newItem).state else s
        case Timer(id) => OnTimeoutFixed(s, id).state;
      RunFixed(next, noAck, steps[1..])
  }

  /** Under the corrected protocol, whatever happens, the flags mirror the
      outstanding calls, so no slot is ever stuck. */
  lemma {:induction false} MirrorsForever(s: State, noAck: bool, steps: seq<Step>)
    requires Mirrors(s)
    ensures Mirrors(RunFixed(s, noAck, steps))
    decreases |steps|
  {
    if steps != [] {
      match steps[0]
      case Call(slot, item, waitTimeout) =>
        MirrorsBegin(s, noAck, slot, item, waitTimeout);
        MirrorsForever(BeginFixed(s, noAck, slot, item, waitTimeout).state, noAck, steps[1..]);
      case Update(slot, newItem) =>
        if 0 <= slot < |s.slots| {
          MirrorsUpdate(s, slot, newItem);
          MirrorsForever(OnUpdateSlotFixed(s, slot, newItem).state, noAck, steps[1..]);
        } else {
          MirrorsForever(s, noAck, steps[1..]);
        }
      case Timer(id) =>
        MirrorsTimeout(s, id);
        MirrorsForever(OnTimeoutFixed(s, id).state, noAck, steps[1..]);
    }
  }
}
