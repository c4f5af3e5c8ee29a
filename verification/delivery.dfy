/** What the delivery of one update event and the firing of one timer do to
    the outstanding waits and the flags, stated index by index. */
module Delivery {
  import opened Items
  import opened SlotSync

  /** No outstanding wait (listener or timer) concerns slot `j`. */
  predicate NoWaitOn(ws: seq<Wait>, j: int)
  {
    forall a :: 0 <= a < |ws| ==> ws[a].slot != j
  }

  /** No two outstanding waits concern the same slot. */
  predicate DistinctSlots(ws: seq<Wait>)
  {
    forall a, b :: 0 <= a < b < |ws| ==> ws[a].slot != ws[b].slot
  }

  /** Every outstanding wait's slot has its pending flag set. */
  predicate Flagged(ws: seq<Wait>, pending: seq<bool>)
  {
    forall a :: 0 <= a < |ws| ==> 0 <= ws[a].slot < |pending| && pending[ws[a].slot]
  }

  /** `ws` without its element at index `p`. */
  function Without<T>(ws: seq<T>, p: nat): (r: seq<T>)
    requires p < |ws|
    ensures |r| == |ws| - 1
    ensures forall a :: 0 <= a < p ==> r[a] == ws[a]
    ensures forall a :: p <= a < |r| ==> r[a] == ws[a + 1]
  {
    ws[..p] + ws[p+1..]
  }

  /** A listener changes at most the flag of its own slot, and only clears it;
      the wait it leaves behind is the same call's. */
  lemma HearFlags(w: Wait, pending: seq<bool>, newItem: Stack)
    requires 0 <= w.slot < |pending|
    ensures var h := Hear(w, pending, newItem);
            && (forall j :: 0 <= j < |pending| && j != w.slot ==> h.pending[j] == pending[j])
            && (h.pending[w.slot] ==> pending[w.slot])
            && (forall k :: 0 <= k < |h.kept| ==> h.kept[k].id == w.id && h.kept[k].item == w.item)
  {
  }

  /** An update event changes the flags of no other slot, and the flag of its
      own slot only by clearing it. */
  lemma {:induction false} EmitFlags(ws: seq<Wait>, pending: seq<bool>, slot: int, newItem: Stack)
    requires WaitsWithin(ws, |pending|)
    ensures var r := Emit(ws, pending, slot, newItem);
            && (forall j :: 0 <= j < |pending| && j != slot ==> r.pending[j] == pending[j])
            && (0 <= slot < |pending| && r.pending[slot] ==> pending[slot])
    decreases |ws|
  {
    if ws != [] {
      if !Listens(ws[0], slot) {
        EmitFlags(ws[1..], pending, slot, newItem);
      } else {
        var h := Hear(ws[0], pending, newItem);
        HearFlags(ws[0], pending, newItem);
        if !h.threw {
          EmitFlags(ws[1..], h.pending, slot, newItem);
        }
      }
    }
  }

  /** An update event that no listener hears changes nothing. */
  lemma {:induction false} EmitSilent(ws: seq<Wait>, pending: seq<bool>, slot: int, newItem: Stack)
    requires WaitsWithin(ws, |pending|) && NoListener(ws, slot)
    ensures Emit(ws, pending, slot, newItem) == Emitted(ws, pending, [], false)
    decreases |ws|
  {
    if ws != [] {
      assert NoListener(ws[1..], slot) by {
        forall k | 0 <= k < |ws[1..]| ensures !Listens(ws[1..][k], slot) {
          assert ws[1..][k] == ws[k + 1];
        }
      }
      EmitSilent(ws[1..], pending, slot, newItem);
    }
  }

  /** An update event never gives a slot a wait it did not have. */
  lemma {:induction false} EmitNoWaitOn(ws: seq<Wait>, pending: seq<bool>, slot: int, newItem: Stack, j: int)
    requires WaitsWithin(ws, |pending|) && NoWaitOn(ws, j)
    ensures NoWaitOn(Emit(ws, pending, slot, newItem).waits, j)
    decreases |ws|
  {
    if ws != [] {
      assert NoWaitOn(ws[1..], j) by {
        forall k | 0 <= k < |ws[1..]| ensures ws[1..][k].slot != j {
          assert ws[1..][k] == ws[k + 1];
        }
      }
      if !Listens(ws[0], slot) {
        EmitNoWaitOn(ws[1..], pending, slot, newItem, j);
      } else {
        var h := Hear(ws[0], pending, newItem);
        if !h.threw {
          EmitNoWaitOn(ws[1..], h.pending, slot, newItem, j);
        }
      }
    }
  }

  /** An update event heard by exactly one listener, the one at index `i`, has
      that listener's effect and no other. */
  lemma {:induction false} EmitOneListener(ws: seq<Wait>, pending: seq<bool>, slot: int, newItem: Stack, i: nat)
    requires WaitsWithin(ws, |pending|) && i < |ws| && Listens(ws[i], slot)
    requires forall k :: 0 <= k < |ws| && k != i ==> !Listens(ws[k], slot)
    ensures 0 <= ws[i].slot < |pending|
    ensures var h := Hear(ws[i], pending, newItem);
            var r := Emit(ws, pending, slot, newItem);
            r.pending == h.pending && r.settled == h.settled && r.threw == h.threw &&
            r.waits == ws[..i] + h.kept + ws[i+1..]
    decreases i, 1
  {
    if i == 0 {
      EmitHeadListener(ws, pending, slot, newItem);
    } else {
      EmitLaterListener(ws, pending, slot, newItem, i);
    }
  }

  lemma EmitHeadListener(ws: seq<Wait>, pending: seq<bool>, slot: int, newItem: Stack)
    requires WaitsWithin(ws, |pending|) && 0 < |ws| && Listens(ws[0], slot)
    requires forall k :: 0 < k < |ws| ==> !Listens(ws[k], slot)
    ensures 0 <= ws[0].slot < |pending|
    ensures var h := Hear(ws[0], pending, newItem);
            var r := Emit(ws, pending, slot, newItem);
            r.pending == h.pending && r.settled == h.settled && r.threw == h.threw &&
            r.waits == ws[..0] + h.kept + ws[1..]
  {
    var h := Hear(ws[0], pending, newItem);
    if !h.threw {
      assert NoListener(ws[1..], slot) by {
        forall k | 0 <= k < |ws[1..]| ensures !Listens(ws[1..][k], slot) {
          assert ws[1..][k] == ws[k + 1];
        }
      }
      EmitSilent(ws[1..], h.pending, slot, newItem);
      assert h.settled + [] == h.settled;
    }
    assert ws[..0] + h.kept == h.kept;
  }

  lemma {:induction false} EmitLaterListener(ws: seq<Wait>, pending: seq<bool>, slot: int, newItem: Stack, i: nat)
    requires WaitsWithin(ws, |pending|) && 0 < i < |ws| && Listens(ws[i], slot)
    requires forall k :: 0 <= k < |ws| && k != i ==> !Listens(ws[k], slot)
    ensures 0 <= ws[i].slot < |pending|
    ensures var h := Hear(ws[i], pending, newItem);
            var r := Emit(ws, pending, slot, newItem);
            r.pending == h.pending && r.settled == h.settled && r.threw == h.threw &&
            r.waits == ws[..i] + h.kept + ws[i+1..]
    decreases i, 0
  {
    var tail := ws[1..];
    assert tail[i - 1] == ws[i];
    assert forall k :: 0 <= k < |tail| && k != i - 1 ==> !Listens(tail[k], slot) by {
      forall k | 0 <= k < |tail| && k != i - 1 ensures !Listens(tail[k], slot) {
        assert tail[k] == ws[k + 1];
      }
    }
    EmitOneListener(tail, pending, slot, newItem, i - 1);
    var h := Hear(ws[i], pending, newItem);
    var rest := Emit(tail, pending, slot, newItem);
    assert !Listens(ws[0], slot);
    assert Emit(ws, pending, slot, newItem) == rest.(waits := [ws[0]] + rest.waits);
    SpliceCons(ws, i, h.kept);
  }

  /** Splicing after the first element commutes with putting it back. */
  lemma SpliceCons<T>(ws: seq<T>, i: nat, kept: seq<T>)
    requires 0 < i < |ws|
    ensures [ws[0]] + (ws[1..][..i - 1] + kept + ws[1..][i..]) == ws[..i] + kept + ws[i+1..]
  {
    assert ws[..i] == [ws[0]] + ws[1..][..i - 1];
    assert ws[i+1..] == ws[1..][i..];
  }

  /** Replacing the element at `i` by nothing or by one element. */
  lemma Splice<T>(ws: seq<T>, i: nat, kept: seq<T>)
    requires i < |ws| && |kept| <= 1
    ensures kept == [] ==> ws[..i] + kept + ws[i+1..] == Without(ws, i)
    ensures |kept| == 1 ==> ws[..i] + kept + ws[i+1..] == ws[i := kept[0]]
  {
    if |kept| == 1 {
      assert ws[..i] + kept + ws[i+1..] == ws[i := kept[0]];
    } else {
      assert ws[..i] + kept + ws[i+1..] == ws[..i] + ws[i+1..];
    }
  }

  /** The index of the first outstanding wait of call `id`, or -1. */
  function FirstWithId(ws: seq<Wait>, id: nat): (p: int)
    ensures -1 <= p < |ws|
    ensures p >= 0 ==> ws[p].id == id && forall k :: 0 <= k < p ==> ws[k].id != id
    ensures p == -1 ==> forall k :: 0 <= k < |ws| ==> ws[k].id != id
    decreases |ws|
  {
    if ws == [] then -1
    else if ws[0].id == id then 0
    else
      var q := FirstWithId(ws[1..], id);
      if q < 0 then -1 else q + 1
  }

  /** The timer of call `id` removes that call's first wait and has that
      wait's effect; without such a wait nothing happens. */
  lemma {:induction false} FireAt(ws: seq<Wait>, pending: seq<bool>, id: nat)
    requires WaitsWithin(ws, |pending|)
    ensures var p := FirstWithId(ws, id);
            var r := Fire(ws, pending, id);
            && (p == -1 ==> r == Fired(ws, pending, []))
            && (p >= 0 ==>
                  (0 <= ws[p].slot < |pending| &&
                   r == Fired(Without(ws, p), Expire(ws[p], pending).pending, Expire(ws[p], pending).settled)))
    decreases |ws|
  {
    var p := FirstWithId(ws, id);
    if ws != [] && ws[0].id != id {
      FireAt(ws[1..], pending, id);
      var rest := Fire(ws[1..], pending, id);
      if p > 0 {
        assert FirstWithId(ws[1..], id) == p - 1;
        assert ws[1..][p - 1] == ws[p];
        WithoutCons(ws, p);
      } else {
        assert [ws[0]] + ws[1..] == ws;
      }
    } else if p == 0 {
      assert Without(ws, 0) == ws[1..];
    }
  }

  lemma WithoutCons<T>(ws: seq<T>, p: nat)
    requires 0 < p < |ws|
    ensures [ws[0]] + Without(ws[1..], p - 1) == Without(ws, p)
  {
    assert ws[..p] == [ws[0]] + ws[1..][..p - 1];
    assert ws[p+1..] == ws[1..][p..];
  }

  /** Removing a wait never gives a slot a wait it did not have. */
  lemma WithoutNoWaitOn(ws: seq<Wait>, p: nat, j: int)
    requires p < |ws| && NoWaitOn(ws, j)
    ensures NoWaitOn(Without(ws, p), j)
  {
  }
}
