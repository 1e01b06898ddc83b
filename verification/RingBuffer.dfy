/** The shared-memory ring as an object, with push, and poll against a writer that stands still. */
module RingBuffer {
  import opened Wrappers
  import opened Bytes
  import opened Slots
  import opened SharedRing
  import opened Numbers

  datatype RingError = PayloadTooLarge(size: nat)

  /** The last round of items is in the slots, each in its own, except what a push under way may have touched. */
  ghost predicate HoldsLast(c: Config, mem: seq<Slot>, written: nat, busy: bool, history: seq<seq<byte>>) {
    && c.capacity > 0 && |mem| == c.capacity && |history| == written
    && (forall k :: 0 <= k < c.capacity ==> |mem[k].data| == c.payloadMax)
    && forall q: nat :: Intact(c, q, written, busy) ==> Holds(mem[q % c.capacity], q, history[q])
  }

  /** While a push is under way its slot may hold anything; the oldest item is no longer promised. */
  lemma BegunHoldsLast(c: Config, mem: seq<Slot>, written: nat, busy: bool, history: seq<seq<byte>>, slot: Slot)
    requires HoldsLast(c, mem, written, busy, history) && |slot.data| == c.payloadMax
    ensures HoldsLast(c, mem[written % c.capacity := slot], written, true, history)
  {
    hide Holds;
    var now := mem[written % c.capacity := slot];
    forall q: nat | Intact(c, q, written, true)
      ensures Holds(now[q % c.capacity], q, history[q])
    {
      assert Intact(c, q, written, busy);
      SlotsDiffer(q, written, c.capacity);
    }
  }

  lemma PushHoldsLast(c: Config, mem: seq<Slot>, now: seq<Slot>, written: nat, busy: bool, history: seq<seq<byte>>, p: seq<byte>)
    requires HoldsLast(c, mem, written, busy, history) && |p| <= c.payloadMax
    requires var k := written % c.capacity;
             now == mem[k := Slot(written, |p|, p + mem[k].data[|p|..], written)]
    ensures HoldsLast(c, now, written + 1, false, history + [p])
  {
    var k := written % c.capacity;
    assert now[k].data[..|p|] == p;
    hide Holds;
    assert Holds(now[k], written, p) by { IsHeld(now[k], written, p); }
    forall q: nat | Intact(c, q, written + 1, false)
      ensures Holds(now[q % c.capacity], q, (history + [p])[q])
    {
      if q < written {
        assert Intact(c, q, written, busy);
        SlotsDiffer(q, written, c.capacity);
      }
    }
  }

  lemma IsHeld(slot: Slot, q: nat, p: seq<byte>)
    requires slot.head == q && slot.len == |p| <= |slot.data| && slot.data[..|p|] == p && slot.tail == q
    ensures Holds(slot, q, p)
  {}

  class RingBuffer {
    const capacity: nat
    const payloadMax: nat
    const slots: array<Slot>
    var writeSeq: nat
    ghost var history: seq<seq<byte>>

    /** A push has been begun and not completed: its slot may hold anything. */
    ghost var busy: bool

    ghost predicate Valid()
      reads this, slots
    {
      HoldsLast(Config(capacity, payloadMax), slots[..], writeSeq, busy, history)
    }

    constructor (capacity: nat, payloadMax: nat)
      requires capacity > 0
      ensures Valid() && fresh(slots) && history == [] && !busy
      ensures this.capacity == capacity && this.payloadMax == payloadMax
    {
      this.capacity, this.payloadMax := capacity, payloadMax;
      slots := new Slot[capacity](_ => Slot(0, 0, seq(payloadMax, _ => 0), 0));
      writeSeq, history, busy := 0, [], false;
    }

    /** The stores of a push before its tail: the header, and the payload as far as it has been copied. */
    method BeginPush(payload: seq<byte>, copied: nat)
      requires Valid() && copied <= |payload| <= payloadMax
      modifies this`busy, slots
      ensures Valid() && busy
      ensures var k := writeSeq % capacity;
              && k < |old(slots[..])|
              && var slot := old(slots[..])[k];
              && |slot.data| == payloadMax
              && slots[..] == old(slots[..])[k := Slot(writeSeq, |payload|, payload[..copied] + slot.data[copied..], slot.tail)]
    {
      ghost var mem := slots[..];
      var k := writeSeq % capacity;
      slots[k] := slots[k].(head := writeSeq, len := |payload|);
      slots[k] := slots[k].(data := payload[..copied] + slots[k].data[copied..]);
      BegunHoldsLast(Config(capacity, payloadMax), mem, writeSeq, busy, history, slots[k]);
      assert slots[..] == mem[k := slots[k]];
      busy := true;
    }

    /** Writes one item, whatever the readers are doing and however far an earlier push got; the item it pushes out of
        the ring is one round old. */
    method Push(payload: seq<byte>) returns (r: Result<nat, RingError>)
      requires Valid()
      modifies this, slots
      ensures Valid() && busy == (old(busy) && r.Err?)
      ensures r == if |payload| > payloadMax then Err(PayloadTooLarge(|payload|)) else Ok(old(writeSeq))
      ensures history == old(history) + if r.Ok? then [payload] else []
      ensures r.Err? ==> slots[..] == old(slots[..])
    {
      if |payload| > payloadMax {
        return Err(PayloadTooLarge(|payload|));
      }
      var seqNo := writeSeq;
      BeginPush(payload, |payload|);
      ghost var mem := slots[..];
      var k := seqNo % capacity;
      slots[k] := slots[k].(tail := seqNo);
      assert slots[..] == mem[k := slots[k]];
      assert slots[k].data == payload + mem[k].data[|payload|..];
      PushHoldsLast(Config(capacity, payloadMax), mem, slots[..], seqNo, busy, history, payload);
      history := history + [payload];
      writeSeq, busy := seqNo + 1, false;
      r := Ok(seqNo);
    }
  }

  // ---- What a poll may rely on ----

  lemma LastFacts(c: Config, mem: seq<Slot>, written: nat, busy: bool, history: seq<seq<byte>>)
    requires HoldsLast(c, mem, written, busy, history)
    ensures c.capacity > 0 && |mem| == c.capacity && |history| == written
  {}

  lemma KeptIsReadable(c: Config, mem: seq<Slot>, written: nat, busy: bool, history: seq<seq<byte>>, q: nat)
    requires HoldsLast(c, mem, written, busy, history) && q < written
    ensures c.capacity > 0 && |mem| == c.capacity && q < |history|
    ensures var slot, p := mem[q % c.capacity], history[q];
            && |slot.data| == c.payloadMax
            && (Intact(c, q, written, busy) ==> slot.head == q && slot.len == |p| <= |slot.data| && slot.data[..slot.len] == p && slot.tail == q)
  {
    assert Intact(c, q, written, busy) ==> Holds(mem[q % c.capacity], q, history[q]);
  }

  lemma RecentIsIntact(c: Config, written: nat, busy: bool, q: nat, from: nat)
    requires from <= q < written && from >= written - c.capacity
    ensures q > from || !busy ==> Intact(c, q, written, busy)
  {}

  /** The items handed over, numbered from `first`, are those pushed, as far as the ring still keeps them. */
  ghost predicate Exact(c: Config, written: nat, busy: bool, history: seq<seq<byte>>, first: nat, out: seq<seq<byte>>) {
    && first + |out| <= |history|
    && forall j :: 0 <= j < |out| && Intact(c, first + j, written, busy) ==> out[j] == history[first + j]
  }

  lemma NothingExact(c: Config, written: nat, busy: bool, history: seq<seq<byte>>, first: nat, out: seq<seq<byte>>)
    requires first <= |history| && |out| == 0
    ensures Exact(c, written, busy, history, first, out)
  {}

  lemma OneMoreExact(c: Config, written: nat, busy: bool, history: seq<seq<byte>>, first: nat, out: seq<seq<byte>>, data: seq<byte>)
    requires Exact(c, written, busy, history, first, out) && first + |out| < |history|
    requires Intact(c, first + |out|, written, busy) ==> data == history[first + |out|]
    ensures Exact(c, written, busy, history, first, out + [data])
  {}

  predicate IsRun(history: seq<seq<byte>>, first: nat, out: seq<seq<byte>>) {
    first + |out| <= |history| && out == history[first..first + |out|]
  }

  /** With no push under way everything is exact. */
  lemma AllExact(c: Config, written: nat, history: seq<seq<byte>>, from: nat, first: nat, out: seq<seq<byte>>)
    requires Exact(c, written, false, history, first, out) && first + |out| <= written
    requires from <= first && from >= written - c.capacity
    ensures from < written ==> Intact(c, from, written, false)
    ensures IsRun(history, first, out)
  {
    forall j | 0 <= j < |out|
      ensures out[j] == history[first + j]
    {
      RecentIsIntact(c, written, false, first + j, from);
    }
  }

  class RingReader {
    const ring: RingBuffer
    var cursor: nat
    var skipped: nat
    var torn: nat

    /** Starts at the next item to be pushed, or where it is told to. */
    constructor (ring: RingBuffer, start: Option<nat>)
      ensures this.ring == ring && skipped == 0 && torn == 0
      ensures cursor == if start.Some? then start.value else ring.writeSeq
    {
      this.ring := ring;
      cursor := if start.Some? then start.value else ring.writeSeq;
      skipped, torn := 0, 0;
    }

    /** Takes a copy of an item, between a look at the head and a look at the tail of its slot. */
    method ReadSlot(q: nat) returns (data: Option<seq<byte>>)
      requires ring.Valid() && q < ring.writeSeq
      ensures q < |ring.history|
      ensures Intact(Config(ring.capacity, ring.payloadMax), q, ring.writeSeq, ring.busy) ==> data == Some(ring.history[q])
    {
      KeptIsReadable(Config(ring.capacity, ring.payloadMax), ring.slots[..], ring.writeSeq, ring.busy, ring.history, q);
      var slot := ring.slots[q % ring.capacity];
      if slot.head != q || slot.len > ring.payloadMax {
        return None;
      }
      var copy := slot.data[..slot.len];
      if slot.tail != q {
        return None;
      }
      data := Some(copy);
    }

    /** Reads item after item; only the first can be the one that a push is overwriting. */
    method Collect(from: nat, top: nat, maxItems: nat) returns (out: seq<seq<byte>>, lost: nat)
      requires ring.Valid() && from <= top == ring.writeSeq && from >= top - ring.capacity
      ensures |out| <= maxItems && from + lost + |out| <= top && (from + lost + |out| == top || |out| == maxItems)
      ensures var c := Config(ring.capacity, ring.payloadMax);
              && (lost > 0 ==> !Intact(c, from, top, ring.busy) && lost == 1)
              && Exact(c, top, ring.busy, ring.history, from + lost, out)
    {
      ghost var c, busy, history := Config(ring.capacity, ring.payloadMax), ring.busy, ring.history;
      LastFacts(c, ring.slots[..], top, busy, history);
      out, lost := [], 0;
      NothingExact(c, top, busy, history, from, out);
      hide *;
      var at := from;
      while at < top && |out| < maxItems
        invariant at == from + lost + |out| <= top && |out| <= maxItems
        invariant lost > 0 ==> !Intact(c, from, top, busy) && lost == 1
        invariant Exact(c, top, busy, history, from + lost, out)
      {
        RecentIsIntact(c, top, busy, at, from);
        var data := ReadSlot(at);
        if data.None? {
          NothingExact(c, top, busy, history, at + 1, out);
          lost := lost + 1;
        } else {
          OneMoreExact(c, top, busy, history, from + lost, out, data.value);
          out := out + [data.value];
        }
        at := at + 1;
      }
    }

    /** A reader that has been lapped jumps to the oldest item that may still be there. */
    method CatchUp(top: nat)
      requires cursor <= top
      modifies this`cursor, this`skipped
      ensures cursor == Max(old(cursor), top - ring.capacity) <= top
      ensures skipped == old(skipped) + (cursor - old(cursor))
    {
      var behind := top - cursor;
      if behind > ring.capacity {
        skipped := skipped + (behind - ring.capacity);
        cursor := top - ring.capacity;
      }
    }

    /** Hands over exactly the items from the cursor on that the ring still holds, and counts as skipped those it no
        longer holds; only the item that a push is overwriting may come out wrong or be given up as torn. */
    method Poll(maxItems: nat) returns (out: seq<seq<byte>>)
      requires ring.Valid() && cursor <= ring.writeSeq
      modifies this
      ensures var from, c := Max(old(cursor), ring.writeSeq - ring.capacity), Config(ring.capacity, ring.payloadMax);
              && from <= cursor <= ring.writeSeq && (cursor == ring.writeSeq || |out| == maxItems) && |out| <= maxItems
              && cursor == from + |out| + (torn - old(torn)) && torn >= old(torn)
              && skipped == old(skipped) + (from - old(cursor))
              && (torn > old(torn) ==> !Intact(c, from, ring.writeSeq, ring.busy) && torn == old(torn) + 1)
              && Exact(c, ring.writeSeq, ring.busy, ring.history, cursor - |out|, out)
              && (!ring.busy ==> torn == old(torn) && IsRun(ring.history, from, out))
    {
      hide Exact, Intact, IsRun, HoldsLast;
      var writeSeq := ring.writeSeq;
      CatchUp(writeSeq);
      var lost;
      out, lost := Collect(cursor, writeSeq, maxItems);
      if !ring.busy {
        AllExact(Config(ring.capacity, ring.payloadMax), writeSeq, ring.history, cursor, cursor + lost, out);
      }
      torn, cursor := torn + lost, cursor + lost + |out|;
    }
  }
}
