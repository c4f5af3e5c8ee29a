/** `clearInventory`: one `setInventorySlot(slot, null)` call, with the
    default wait, for every non-empty slot of the inventory as it is when
    clearInventory is called, in slot order. Each call runs synchronously up
    to its first wait before the next one starts. */
module ClearAll {
  import opened Items
  import opened SlotSync
  import opened Steps

  /** The indices below `n` of the non-empty slots, in increasing order. */
  function Occupied(slots: seq<Stack>, n: nat): (r: seq<int>)
    requires n <= |slots|
    ensures forall j :: j in r <==> 0 <= j < n && slots[j].Some?
    ensures forall k :: 0 <= k < |r| ==> 0 <= r[k] < n
    ensures forall a, b :: 0 <= a < b < |r| ==> r[a] < r[b]
    decreases n
  {
    if n == 0 then []
    else Occupied(slots, n - 1) + (if slots[n - 1].Some? then [n - 1] else [])
  }

  /** The slots clearInventory empties: every non-empty one. */
  function OccupiedSlots(slots: seq<Stack>): (r: seq<int>)
    ensures forall j :: j in r <==> 0 <= j < |slots| && slots[j].Some?
    ensures forall a, b :: 0 <= a < b < |r| ==> r[a] < r[b]
  {
    Occupied(slots, |slots|)
  }

  datatype Cleared = Cleared(state: State, replies: seq<Reply>, settled: seq<Settlement>)

  /** The synchronous parts of `setInventorySlot(t, null)` for the slots
      `targets`, in order. */
  function ClearCalls(s: State, noAck: bool, targets: seq<int>): (r: Cleared)
    requires Valid(s)
    ensures Valid(r.state) && |r.replies| == |targets|
    decreases |targets|
  {
    if targets == [] then Cleared(s, [], [])
    else
      var before := ClearCalls(s, noAck, targets[..|targets| - 1]);
      var b := Begin(before.state, noAck, targets[|targets| - 1], None, DefaultWaitTimeout);
      Cleared(b.state, before.replies + [b.reply], before.settled + b.settled)
  }

  /** One more call, on the next target. */
  lemma ClearCallsStep(s: State, noAck: bool, targets: seq<int>, i: nat)
    requires Valid(s) && i < |targets|
    ensures var before := ClearCalls(s, noAck, targets[..i]);
            var b := Begin(before.state, noAck, targets[i], None, DefaultWaitTimeout);
            ClearCalls(s, noAck, targets[..i + 1]) ==
              Cleared(b.state, before.replies + [b.reply], before.settled + b.settled)
  {
    assert targets[..i + 1][..i] == targets[..i];
  }

  /** The packets clearInventory sends: `(t, null)` for each target in range
      whose flag is not set, in order. */
  function Requests(s: State, targets: seq<int>): (r: seq<Request>)
    requires Valid(s)
    ensures |r| <= |targets|
    ensures forall k :: 0 <= k < |r| ==> r[k].item == None && r[k].slot in targets
    decreases |targets|
  {
    if targets == [] then []
    else
      var t := targets[|targets| - 1];
      Requests(s, targets[..|targets| - 1]) + (if InRange(t) && !s.pending[t] then [Request(t, None)] else [])
  }

  /** For targets in increasing order, the packets are in increasing slot
      order too, so no slot gets two packets. */
  lemma {:induction false} RequestsOrdered(s: State, targets: seq<int>)
    requires Valid(s)
    requires forall a, b :: 0 <= a < b < |targets| ==> targets[a] < targets[b]
    ensures forall a, b :: 0 <= a < b < |Requests(s, targets)| ==>
              Requests(s, targets)[a].slot < Requests(s, targets)[b].slot
    decreases |targets|
  {
    if targets != [] {
      var n := |targets| - 1;
      var init := targets[..n];
      assert forall a, b :: 0 <= a < b < |init| ==> init[a] < init[b];
      RequestsOrdered(s, init);
      var ri := Requests(s, init);
      forall k | 0 <= k < |ri| ensures ri[k].slot < targets[n] {
        var a :| 0 <= a < |init| && init[a] == ri[k].slot;
        assert init[a] == targets[a];
      }
    }
  }

  /** A slot that is no target keeps its flag and its content. */
  lemma {:induction false} ClearFrame(s: State, noAck: bool, targets: seq<int>, j: int)
    requires Valid(s) && j !in targets
    ensures var r := ClearCalls(s, noAck, targets);
            && |r.state.slots| == |s.slots|
            && (InRange(j) ==> r.state.pending[j] == s.pending[j])
            && (0 <= j < |s.slots| ==> r.state.slots[j] == s.slots[j])
    decreases |targets|
  {
    if targets != [] {
      var init := targets[..|targets| - 1];
      assert forall k :: 0 <= k < |init| ==> init[k] == targets[k];
      ClearFrame(s, noAck, init, j);
      var before := ClearCalls(s, noAck, init);
      BeginSends(before.state, noAck, targets[|targets| - 1], None, DefaultWaitTimeout);
    }
  }

  /** Before the call on target `k`, its slot still has the flag and the
      content it had when clearInventory was called. */
  lemma TargetUntouched(s: State, noAck: bool, targets: seq<int>, k: nat)
    requires Valid(s) && k < |targets|
    requires forall a, b :: 0 <= a < b < |targets| ==> targets[a] < targets[b]
    ensures var before := ClearCalls(s, noAck, targets[..k]);
            && |before.state.slots| == |s.slots|
            && (InRange(targets[k]) ==> before.state.pending[targets[k]] == s.pending[targets[k]])
            && (0 <= targets[k] < |s.slots| ==> before.state.slots[targets[k]] == s.slots[targets[k]])
  {
    assert forall a :: 0 <= a < k ==> targets[..k][a] == targets[a] && targets[a] < targets[k];
    ClearFrame(s, noAck, targets[..k], targets[k]);
  }

  /** clearInventory sends `(t, null)` exactly for the non-empty target slots
      in range whose flag is not set, in order. */
  lemma {:induction false} ClearSends(s: State, noAck: bool, targets: seq<int>)
    requires Valid(s)
    requires forall a, b :: 0 <= a < b < |targets| ==> targets[a] < targets[b]
    requires forall k :: 0 <= k < |targets| ==> 0 <= targets[k] < |s.slots| && s.slots[targets[k]].Some?
    ensures ClearCalls(s, noAck, targets).state.outbox == s.outbox + Requests(s, targets)
    decreases |targets|
  {
    if targets != [] {
      var n := |targets| - 1;
      var init := targets[..n];
      var t := targets[n];
      assert forall k :: 0 <= k < |init| ==> init[k] == targets[k];
      ClearSends(s, noAck, init);
      TargetUntouched(s, noAck, targets, n);
      var before := ClearCalls(s, noAck, init);
      BeginSends(before.state, noAck, t, None, DefaultWaitTimeout);
      assert Proceeds(before.state, t, None) == (InRange(t) && !s.pending[t]);
    }
  }

  /** The calls clearInventory makes are turned away by the guards exactly as
      single calls would be: the offhand slot (45) fails the range assertion,
      a slot with a pending mutation fails with a conflict. */
  lemma ClearReplies(s: State, noAck: bool, targets: seq<int>, k: nat)
    requires Valid(s) && k < |targets|
    requires forall a, b :: 0 <= a < b < |targets| ==> targets[a] < targets[b]
    requires 0 <= targets[k] < |s.slots| && s.slots[targets[k]].Some?
    ensures var reply := ClearCalls(s, noAck, targets).replies[k];
            && (!InRange(targets[k]) ==> reply == Now(Failed(InvalidSlot)))
            && (InRange(targets[k]) && s.pending[targets[k]] ==> reply == Now(Failed(Conflict(targets[k]))))
  {
    ClearPrefix(s, noAck, targets, k + 1);
    TargetUntouched(s, noAck, targets, k);
    var before := ClearCalls(s, noAck, targets[..k]);
    assert targets[..k + 1][..k] == targets[..k];
    BeginGuards(before.state, noAck, targets[k], None, DefaultWaitTimeout);
  }

  /** The replies of a prefix of the calls are those of the whole. */
  lemma {:induction false} ClearPrefix(s: State, noAck: bool, targets: seq<int>, m: nat)
    requires Valid(s) && m <= |targets|
    ensures var all := ClearCalls(s, noAck, targets).replies;
            var part := ClearCalls(s, noAck, targets[..m]).replies;
            forall k :: 0 <= k < m ==> all[k] == part[k]
    decreases |targets|
  {
    if m < |targets| {
      var init := targets[..|targets| - 1];
      ClearPrefix(s, noAck, init, m);
      assert init[..m] == targets[..m];
    } else {
      assert targets[..m] == targets;
    }
  }

  /** From a fresh connection clearInventory sends `(t, null)` for every
      non-empty slot 0..44, once each and in slot order, and nothing else. */
  lemma ClearFromStart(slots: seq<Stack>, noAck: bool)
    requires |slots| >= SlotCount
    ensures var s := Initial(slots);
            var targets := OccupiedSlots(slots);
            var r := ClearCalls(s, noAck, targets);
            && r.state.outbox == Requests(s, targets)
            && (forall k :: 0 <= k < |r.state.outbox| ==>
                  var q := r.state.outbox[k]; InRange(q.slot) && slots[q.slot].Some? && q.item == None)
            && (forall j :: InRange(j) && slots[j].Some? ==> Request(j, None) in r.state.outbox)
            && (forall a, b :: 0 <= a < b < |r.state.outbox| ==> r.state.outbox[a].slot < r.state.outbox[b].slot)
  {
    var s := Initial(slots);
    var targets := OccupiedSlots(slots);
    ClearSends(s, noAck, targets);
    RequestsExact(s, targets);
    RequestsOrdered(s, targets);
  }

  /** With no flag set, the packets are exactly the targets in range. */
  lemma {:induction false} RequestsExact(s: State, targets: seq<int>)
    requires Valid(s) && forall j :: InRange(j) ==> !s.pending[j]
    ensures forall k :: 0 <= k < |Requests(s, targets)| ==> InRange(Requests(s, targets)[k].slot)
    ensures forall j :: InRange(j) && j in targets ==> Request(j, None) in Requests(s, targets)
    decreases |targets|
  {
    if targets != [] {
      var init := targets[..|targets| - 1];
      RequestsExact(s, init);
      forall j | InRange(j) && j in targets ensures Request(j, None) in Requests(s, targets) {
        if j != targets[|targets| - 1] {
          var k :| 0 <= k < |targets| && targets[k] == j;
          assert init[k] == j;
        }
      }
    }
  }
}
