/** The `bot.creative` object: the pending-update table and the local inventory
    are arrays updated in place, the packets written, the outstanding waits
    and the physics overrides are fields the methods reassign. Every method
    is proved to perform the corresponding step of the protocol model. */
module Creative {
  import opened Items
  import opened SlotSync
  import opened Delivery
  import opened Steps
  import opened ClearAll

  /** The physics overrides with flying switched on: gravity is overridden
      to 0 and every other override is kept. */
  function Flying(overrides: map<string, real>): (r: map<string, real>)
    ensures "gravity" in r && r["gravity"] == 0.0
    ensures forall k :: k in r <==> k in overrides || k == "gravity"
    ensures forall k :: k in overrides && k != "gravity" ==> r[k] == overrides[k]
  {
    overrides["gravity" := 0.0]
  }

  /** The physics overrides with flying switched off: the gravity override is
      gone and every other override is kept. */
  function Grounded(overrides: map<string, real>): (r: map<string, real>)
    ensures "gravity" !in r
    ensures forall k :: k in r <==> k in overrides && k != "gravity"
    ensures forall k :: k in r ==> r[k] == overrides[k]
  {
    overrides - {"gravity"}
  }

  /** Switching flying on or off twice is switching it once, and the last
      switch alone decides the overrides. */
  lemma FlyingIdempotent(overrides: map<string, real>)
    ensures Flying(Flying(overrides)) == Flying(overrides)
    ensures Grounded(Grounded(overrides)) == Grounded(overrides)
    ensures Grounded(Flying(overrides)) == Grounded(overrides)
    ensures Flying(Grounded(overrides)) == Flying(overrides)
  {
  }

  class Creative {
    /** Whether the host does not acknowledge `set_creative_slot`. */
    const noAck: bool
    /** `creativeSlotsUpdates`: one flag per slot 0..44. */
    const pending: array<bool>
    /** The local inventory slots. */
    const inventory: array<Stack>
    var outbox: seq<Request>
    var waits: seq<Wait>
    var nextId: nat
    var overrides: map<string, real>

    predicate Valid()
      reads this, pending, inventory
    {
      pending.Length == SlotCount && inventory.Length >= SlotCount && WaitsWithin(waits, SlotCount)
    }

    /** The protocol state the object stands for. */
    function Abs(): (s: State)
      reads this, pending, inventory
      requires Valid()
      ensures SlotSync.Valid(s)
    {
      State(pending[..], inventory[..], outbox, waits, nextId)
    }

    constructor (noAck: bool, slots: seq<Stack>, overrides: map<string, real>)
      requires |slots| >= SlotCount
      ensures Valid() && Abs() == Initial(slots)
      ensures this.noAck == noAck && this.overrides == overrides
    {
      this.noAck := noAck;
      pending := new bool[SlotCount](_ => false);
      inventory := new Stack[|slots|](i requires 0 <= i < |slots| => slots[i]);
      outbox := [];
      waits := [];
      nextId := 0;
      this.overrides := overrides;
      new;
      assert pending[..] == seq(SlotCount, _ => false);
      assert inventory[..] == slots;
    }

    /** `setInventorySlot(slot, item, waitTimeout)` up to its first wait. */
    method SetInventorySlot(slot: int, item: Stack, waitTimeout: int) returns (reply: Reply, settled: seq<Settlement>)
      requires Valid()
      modifies this, pending, inventory
      ensures Valid() && overrides == old(overrides)
      ensures var r := Begin(old(Abs()), noAck, slot, item, waitTimeout);
              Abs() == r.state && reply == r.reply && settled == r.settled
    {
      if !(0 <= slot < SlotCount) {
        return Now(Failed(InvalidSlot)), [];
      }
      if SameStack(inventory[slot], item) {
        return Now(Resolved), [];
      }
      if pending[slot] {
        return Now(Failed(Conflict(slot))), [];
      }
      pending[slot] := true;
      outbox := outbox + [Request(slot, item)];
      if noAck {
        var threw;
        settled, threw := UpdateSlot(slot, item);
        if threw {
          return Now(Failed(ListenerThrew)), settled;
        }
        if waitTimeout == 0 {
          return Now(Resolved), settled;
        }
        waits := waits + [Wait(nextId, slot, item, Window(true, false))];
      } else {
        settled := [];
        waits := waits + [Wait(nextId, slot, item, Ack)];
      }
      reply := Waiting(nextId);
      nextId := nextId + 1;
    }

    /** The inventory reports `newItem` in `slot`; the listeners of the slot
        hear it. */
    method UpdateSlot(slot: int, newItem: Stack) returns (settled: seq<Settlement>, threw: bool)
      requires Valid() && 0 <= slot < inventory.Length
      modifies this, pending, inventory
      ensures Valid() && overrides == old(overrides)
      ensures var r := OnUpdateSlot(old(Abs()), slot, newItem);
              Abs() == r.state && settled == r.settled && threw == r.threw
    {
      var e := Emit(waits, pending[..], slot, newItem);
      EmitFlags(waits, pending[..], slot, newItem);
      inventory[slot] := newItem;
      if slot < SlotCount {
        pending[slot] := e.pending[slot];
      }
      waits := e.waits;
      settled, threw := e.settled, e.threw;
      assert pending[..] == e.pending;
    }

    /** The timer of call `id` fires. */
    method Timeout(id: nat) returns (settled: seq<Settlement>)
      requires Valid()
      modifies this, pending
      ensures Valid() && overrides == old(overrides)
      ensures var r := OnTimeout(old(Abs()), id);
              Abs() == r.state && settled == r.settled
    {
      ghost var s := Abs();
      TimeoutEffect(s, id);
      var p := FirstWithId(waits, id);
      if p < 0 {
        return [];
      }
      var w := waits[p];
      match w.kind {
        case Window(_, rejected) =>
          pending[w.slot] := false;
          settled := if rejected then [] else [Settled(id, Resolved)];
          assert pending[..] == s.pending[w.slot := false];
        case Ack =>
          settled := [Settled(id, Failed(TimedOut))];
      }
      waits := Without(waits, p);
    }

    /** `clearSlot(slot)`: setInventorySlot(slot, null) with the default wait. */
    method ClearSlot(slot: int) returns (reply: Reply, settled: seq<Settlement>)
      requires Valid()
      modifies this, pending, inventory
      ensures Valid() && overrides == old(overrides)
      ensures var r := Begin(old(Abs()), noAck, slot, None, DefaultWaitTimeout);
              Abs() == r.state && reply == r.reply && settled == r.settled
    {
      reply, settled := SetInventorySlot(slot, None, DefaultWaitTimeout);
    }

    /** `clearInventory()`: a call clearing each non-empty slot, in order. */
    method ClearInventory() returns (replies: seq<Reply>, settled: seq<Settlement>)
      requires Valid()
      modifies this, pending, inventory
      ensures Valid() && overrides == old(overrides)
      ensures var r := ClearCalls(old(Abs()), noAck, OccupiedSlots(old(inventory[..])));
              Abs() == r.state && replies == r.replies && settled == r.settled
    {
      var targets := OccupiedSlots(inventory[..]);
      ghost var s0 := Abs();
      replies, settled := [], [];
      for i := 0 to |targets|
        invariant Valid() && overrides == old(overrides)
        invariant var r := ClearCalls(s0, noAck, targets[..i]);
                  Abs() == r.state && replies == r.replies && settled == r.settled
      {
        ClearCallsStep(s0, noAck, targets, i);
        var reply, st := SetInventorySlot(targets[i], None, DefaultWaitTimeout);
        replies, settled := replies + [reply], settled + st;
      }
      assert targets[..|targets|] == targets;
    }

    /** `startFlying()`: override gravity with 0. */
    method StartFlying()
      requires Valid()
      modifies this
      ensures Valid() && Abs() == old(Abs())
      ensures overrides == Flying(old(overrides))
    {
      overrides := overrides["gravity" := 0.0];
    }

    /** `stopFlying()`: drop the gravity override. */
    method StopFlying()
      requires Valid()
      modifies this
      ensures Valid() && Abs() == old(Abs())
      ensures overrides == Grounded(old(overrides))
    {
      overrides := overrides - {"gravity"};
    }
  }
}
