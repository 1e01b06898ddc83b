/** The shared-memory ring while writer and reader run at once: every store of `push` and every load of `poll` is
    a step of its own, in any interleaving. */
module SharedRing {
  import opened Wrappers
  import opened Bytes
  import opened Slots

  datatype Config = Config(capacity: nat, payloadMax: nat)

  datatype Slot = Slot(head: nat, len: nat, data: seq<byte>, tail: nat)

  /** What the writer has stored so far of the item it is pushing. */
  datatype Stage = HeadStored | Copied(count: nat) | TailStored

  datatype Writer = Idle | Writing(payload: seq<byte>, stage: Stage)

  /** Where the reader is: between polls, about to load a head, a length, the next byte or the tail. */
  datatype Reader =
    | Between
    | Polling(top: nat, left: nat)
    | HeadLoaded(top: nat, left: nat, head: nat)
    | Copying(top: nat, left: nat, len: nat, data: seq<byte>)

  /** One item decided: its bytes if it was accepted, what had been published by then, and whether the writer was
      in the middle of a push. */
  datatype Entry = Entry(seqNo: nat, data: Option<seq<byte>>, written: nat, busy: bool)

  datatype State = State(
    slots: seq<Slot>, writeSeq: nat, history: seq<seq<byte>>, writer: Writer,
    reader: Reader, start: nat, cursor: nat, skipped: nat, torn: nat, returned: nat, log: seq<Entry>)

  function Initial(c: Config): State {
    State(seq(c.capacity, _ => Slot(0, 0, seq(c.payloadMax, _ => 0), 0)), 0, [], Idle, Between, 0, 0, 0, 0, 0, [])
  }

  datatype Action = Write(payload: seq<byte>) | Read(maxItems: nat) | Attach(start: nat)

  // ---- The writer's stores ----

  function SlotAt(c: Config, s: State, q: nat): Slot
    requires c.capacity > 0 && |s.slots| == c.capacity
  {
    s.slots[q % c.capacity]
  }

  function Stored(c: Config, s: State, slot: Slot): State
    requires c.capacity > 0 && |s.slots| == c.capacity
  {
    s.(slots := s.slots[s.writeSeq % c.capacity := slot])
  }

  /** The next store of the push under way, or the first of a new one; a payload that is too large is refused. */
  function WriterStep(c: Config, s: State, payload: seq<byte>): State
    requires Shaped(c, s)
  {
    var slot := SlotAt(c, s, s.writeSeq);
    match s.writer
    case Idle =>
      if |payload| > c.payloadMax then s
      else Stored(c, s, slot.(head := s.writeSeq)).(history := s.history + [payload], writer := Writing(payload, HeadStored))
    case Writing(p, HeadStored) => Stored(c, s, slot.(len := |p|)).(writer := Writing(p, Copied(0)))
    case Writing(p, Copied(j)) =>
      if j < |p| && j < |slot.data| then
        Stored(c, s, slot.(data := slot.data[j := p[j]])).(writer := Writing(p, Copied(j + 1)))
      else Stored(c, s, slot.(tail := s.writeSeq)).(writer := Writing(p, TailStored))
    case Writing(_, TailStored) => s.(writeSeq := s.writeSeq + 1, writer := Idle)
  }

  // ---- The reader's loads ----

  function Decided(s: State, data: Option<seq<byte>>, top: nat, left: nat): State {
    s.(reader := Polling(top, if data.Some? && left > 0 then left - 1 else left),
       cursor := s.cursor + 1,
       torn := if data.None? then s.torn + 1 else s.torn,
       returned := if data.Some? then s.returned + 1 else s.returned,
       log := s.log + [Entry(s.cursor, data, s.writeSeq, s.writer != Idle)])
  }

  function ReaderStep(c: Config, s: State, maxItems: nat): State
    requires Shaped(c, s)
  {
    match s.reader
    case Between =>
      var top := s.writeSeq;
      var t := s.(reader := Polling(top, maxItems));
      if top - s.cursor > c.capacity then
        t.(skipped := s.skipped + (top - s.cursor - c.capacity), cursor := top - c.capacity)
      else t
    case Polling(top, left) =>
      if s.cursor < top && left > 0 then s.(reader := HeadLoaded(top, left, SlotAt(c, s, s.cursor).head))
      else s.(reader := Between)
    case HeadLoaded(top, left, head) =>
      var n := SlotAt(c, s, s.cursor).len;
      if head != s.cursor || n > c.payloadMax then Decided(s, None, top, left)
      else s.(reader := Copying(top, left, n, []))
    case Copying(top, left, n, data) =>
      var slot := SlotAt(c, s, s.cursor);
      if |data| < n && |data| < |slot.data| then s.(reader := Copying(top, left, n, data + [slot.data[|data|]]))
      else Decided(s, if slot.tail == s.cursor then Some(data) else None, top, left)
  }

  function Step(c: Config, s: State, a: Action): State
    requires Shaped(c, s)
  {
    match a
    case Write(p) => WriterStep(c, s, p)
    case Read(n) => ReaderStep(c, s, n)
    case Attach(start) =>
      if start > s.writeSeq then s
      else s.(reader := Between, start := start, cursor := start, skipped := 0, torn := 0, returned := 0, log := [])
  }

  function Run(c: Config, s: State, acts: seq<Action>): (r: State)
    requires Shaped(c, s)
    ensures Shaped(c, r)
    decreases |acts|
  {
    if acts == [] then s
    else
      StepShapes(c, s, acts[0]);
      Run(c, Step(c, s, acts[0]), acts[1..])
  }

  predicate Shaped(c: Config, s: State) {
    && c.capacity > 0 && |s.slots| == c.capacity
    && forall k :: 0 <= k < c.capacity ==> |s.slots[k].data| == c.payloadMax
  }

  lemma StepShapes(c: Config, s: State, a: Action)
    requires Shaped(c, s)
    ensures Shaped(c, Step(c, s, a))
  {}

  // ---- What memory holds ----

  /** Item `q` is published and its slot has not been touched since. */
  predicate Intact(c: Config, q: nat, written: nat, busy: bool) {
    q < written && (written < q + c.capacity || (written == q + c.capacity && !busy))
  }

  predicate Holds(slot: Slot, q: nat, p: seq<byte>) {
    slot.head == q && slot.len == |p| <= |slot.data| && slot.data[..|p|] == p && slot.tail == q
  }

  ghost predicate Pushed(c: Config, s: State) {
    && |s.history| == s.writeSeq + (if s.writer == Idle then 0 else 1)
    && (forall i :: 0 <= i < |s.history| ==> |s.history[i]| <= c.payloadMax)
    && (s.writer.Writing? ==> s.writer.payload == s.history[s.writeSeq])
  }

  ghost predicate Underway(c: Config, s: State)
    requires Shaped(c, s)
  {
    var slot := SlotAt(c, s, s.writeSeq);
    match s.writer
    case Idle => true
    case Writing(_, HeadStored) => slot.head == s.writeSeq
    case Writing(p, Copied(j)) => slot.head == s.writeSeq && slot.len == |p| && j <= |p| <= |slot.data| && slot.data[..j] == p[..j]
    case Writing(p, TailStored) => Holds(slot, s.writeSeq, p)
  }

  ghost predicate AllHeld(c: Config, s: State)
    requires Shaped(c, s)
  {
    forall q: nat :: Intact(c, q, s.writeSeq, s.writer != Idle) && q < |s.history| ==> Holds(SlotAt(c, s, q), q, s.history[q])
  }

  /** The tail of an item that has been lapped is a later one's. */
  ghost predicate TailsMoved(c: Config, s: State)
    requires Shaped(c, s)
  {
    forall q: nat :: q + c.capacity < s.writeSeq ==> SlotAt(c, s, q).tail > q
  }

  ghost predicate MemoryInv(c: Config, s: State) {
    Shaped(c, s) && Pushed(c, s) && Underway(c, s) && AllHeld(c, s) && TailsMoved(c, s)
  }

  // ---- What the reader knows ----

  ghost predicate ReaderInv(c: Config, s: State) {
    var intact := Intact(c, s.cursor, s.writeSeq, s.writer != Idle) && s.cursor < |s.history|;
    && s.cursor <= s.writeSeq
    && match s.reader
       case Between => true
       case Polling(top, _) => top <= s.writeSeq
       case HeadLoaded(top, left, head) => s.cursor < top <= s.writeSeq && left > 0 && (intact ==> head == s.cursor)
       case Copying(top, left, n, data) =>
         && s.cursor < top <= s.writeSeq && left > 0 && n <= c.payloadMax && |data| <= n
         && (intact ==> n == |s.history[s.cursor]| && data == s.history[s.cursor][..|data|])
  }

  /** What may be said of a decided item: it was accepted only while its tail could still be its own, and as long as
      its slot had not been touched it was accepted, and with exactly the bytes that were pushed. */
  ghost predicate Sound(c: Config, e: Entry, history: seq<seq<byte>>) {
    && e.seqNo < e.written && e.seqNo < |history|
    && (e.data.Some? ==> e.written <= e.seqNo + c.capacity)
    && (Intact(c, e.seqNo, e.written, e.busy) ==> e.data == Some(history[e.seqNo]))
  }

  ghost predicate LogInv(c: Config, s: State) {
    && s.cursor == s.start + s.returned + s.skipped + s.torn
    && |s.log| == s.returned + s.torn
    && (forall i :: 0 <= i < |s.log| ==> s.log[i].seqNo < s.cursor && Sound(c, s.log[i], s.history))
    && (forall i, j :: 0 <= i < j < |s.log| ==> s.log[i].seqNo < s.log[j].seqNo)
  }

  // ---- Every step keeps it ----

  lemma StoreElsewhere(c: Config, s: State, slot: Slot, q: nat)
    requires Shaped(c, s) && q < s.writeSeq < q + c.capacity
    ensures SlotAt(c, Stored(c, s, slot), q) == SlotAt(c, s, q)
  {
    SlotsDiffer(q, s.writeSeq, c.capacity);
  }

  /** A store into the slot under way leaves every item that is still intact. */
  lemma StoreKeepsHeld(c: Config, s: State, slot: Slot, t: State)
    requires Shaped(c, s) && Shaped(c, t) && AllHeld(c, s)
    requires t.slots == Stored(c, s, slot).slots && t.writeSeq == s.writeSeq && t.writer != Idle
    requires |t.history| >= |s.history| >= s.writeSeq && t.history[..|s.history|] == s.history
    ensures AllHeld(c, t)
  {
    hide Holds, SlotAt, Stored;
    forall q: nat | Intact(c, q, t.writeSeq, t.writer != Idle) && q < |t.history|
      ensures Holds(SlotAt(c, t, q), q, t.history[q])
    {
      StoreElsewhere(c, s, slot, q);
      SameSlot(c, Stored(c, s, slot), t, q);
      assert t.history[q] == t.history[..|s.history|][q];
    }
  }

  lemma SameSlot(c: Config, s: State, t: State, q: nat)
    requires Shaped(c, s) && Shaped(c, t) && s.slots == t.slots
    ensures SlotAt(c, s, q) == SlotAt(c, t, q)
  {}

  lemma PublishKeepsHeld(c: Config, s: State)
    requires MemoryInv(c, s) && s.writer.Writing? && s.writer.stage == TailStored
    ensures AllHeld(c, WriterStep(c, s, []))
  {
    var t := WriterStep(c, s, []);
    hide Holds;
    forall q: nat | Intact(c, q, t.writeSeq, t.writer != Idle) && q < |t.history|
      ensures Holds(SlotAt(c, t, q), q, t.history[q])
    {
      if q < s.writeSeq {
        assert Intact(c, q, s.writeSeq, true);
      }
    }
  }

  lemma TailsStay(c: Config, s: State, slot: Slot, t: State)
    requires Shaped(c, s) && Shaped(c, t) && TailsMoved(c, s)
    requires t.slots == Stored(c, s, slot).slots && t.writeSeq == s.writeSeq
    requires slot.tail == SlotAt(c, s, s.writeSeq).tail || slot.tail == s.writeSeq
    ensures TailsMoved(c, t)
  {
    forall q: nat | q + c.capacity < t.writeSeq
      ensures SlotAt(c, t, q).tail > q
    {
      assert SlotAt(c, s, q).tail > q;
    }
  }

  lemma PublishKeepsTails(c: Config, s: State)
    requires MemoryInv(c, s) && s.writer.Writing? && s.writer.stage == TailStored
    ensures TailsMoved(c, WriterStep(c, s, []))
  {
    var t := WriterStep(c, s, []);
    forall q: nat | q + c.capacity < t.writeSeq
      ensures SlotAt(c, t, q).tail > q
    {
      if q + c.capacity == s.writeSeq {
        SameSlotNextRound(q, c.capacity);
      } else {
        assert SlotAt(c, s, q).tail > q;
      }
    }
  }

  /** The slot the next store goes to, as it will be. */
  function NextSlot(c: Config, s: State, payload: seq<byte>): Slot
    requires Shaped(c, s)
  {
    SlotAt(c, WriterStep(c, s, payload), s.writeSeq)
  }

  lemma WriterStores(c: Config, s: State, payload: seq<byte>)
    requires MemoryInv(c, s) && !(s.writer == Idle && |payload| > c.payloadMax)
    requires !(s.writer.Writing? && s.writer.stage == TailStored)
    ensures var t := WriterStep(c, s, payload);
            && t.slots == Stored(c, s, NextSlot(c, s, payload)).slots && t.writeSeq == s.writeSeq && t.writer != Idle
            && (NextSlot(c, s, payload).tail == SlotAt(c, s, s.writeSeq).tail || NextSlot(c, s, payload).tail == s.writeSeq)
            && |NextSlot(c, s, payload).data| == c.payloadMax
  {
    hide Holds, AllHeld, TailsMoved;
  }

  lemma WriterKeepsUnderway(c: Config, s: State, payload: seq<byte>)
    requires MemoryInv(c, s)
    ensures var t := WriterStep(c, s, payload); Shaped(c, t) && Pushed(c, t) && Underway(c, t)
  {
    hide AllHeld, TailsMoved;
  }

  lemma WriterKeepsMemory(c: Config, s: State, payload: seq<byte>)
    requires MemoryInv(c, s)
    ensures MemoryInv(c, WriterStep(c, s, payload))
  {
    var t := WriterStep(c, s, payload);
    WriterKeepsUnderway(c, s, payload);
    if s.writer.Writing? && s.writer.stage == TailStored {
      PublishKeepsHeld(c, s);
      PublishKeepsTails(c, s);
    } else if s.writer == Idle && |payload| > c.payloadMax {
    } else {
      WriterStores(c, s, payload);
      HistoryGrows(c, s, payload);
      hide Underway, Pushed, NextSlot, Stored, SlotAt, AllHeld, TailsMoved, WriterStep;
      StoreKeepsHeld(c, s, NextSlot(c, s, payload), t);
      TailsStay(c, s, NextSlot(c, s, payload), t);
    }
  }

  lemma HistoryGrows(c: Config, s: State, payload: seq<byte>)
    requires MemoryInv(c, s)
    ensures var t := WriterStep(c, s, payload);
            |t.history| >= |s.history| >= s.writeSeq && t.history[..|s.history|] == s.history
  {
    hide AllHeld, TailsMoved, Underway;
  }

  /** What was lapped stays lapped, and the past does not change. */
  lemma WriterKeepsReader(c: Config, s: State, payload: seq<byte>)
    requires MemoryInv(c, s) && ReaderInv(c, s)
    ensures ReaderInv(c, WriterStep(c, s, payload))
  {
    hide AllHeld, TailsMoved, Underway, Holds;
    HistoryGrows(c, s, payload);
    var t := WriterStep(c, s, payload);
    assert s.cursor < s.writeSeq ==> t.history[s.cursor] == s.history[s.cursor];
    assert s.cursor < s.writeSeq && Intact(c, s.cursor, t.writeSeq, t.writer != Idle) ==> Intact(c, s.cursor, s.writeSeq, s.writer != Idle);
  }

  lemma WriterKeepsLog(c: Config, s: State, payload: seq<byte>)
    requires MemoryInv(c, s) && LogInv(c, s)
    ensures LogInv(c, WriterStep(c, s, payload))
  {
    HistoryGrows(c, s, payload);
    var t := WriterStep(c, s, payload);
    hide MemoryInv, Intact;
    forall i | 0 <= i < |t.log|
      ensures t.log[i].seqNo < t.cursor && Sound(c, t.log[i], t.history)
    {
      assert s.log[i].seqNo < s.cursor && Sound(c, s.log[i], s.history);
    }
  }

  lemma IntactHolds(c: Config, s: State)
    requires MemoryInv(c, s) && Intact(c, s.cursor, s.writeSeq, s.writer != Idle) && s.cursor < |s.history|
    ensures Holds(SlotAt(c, s, s.cursor), s.cursor, s.history[s.cursor])
    ensures |s.history[s.cursor]| <= c.payloadMax
  {}

  lemma ReaderKeepsReader(c: Config, s: State, maxItems: nat)
    requires MemoryInv(c, s) && ReaderInv(c, s)
    ensures ReaderInv(c, ReaderStep(c, s, maxItems))
  {
    if Intact(c, s.cursor, s.writeSeq, s.writer != Idle) && s.cursor < |s.history| {
      IntactHolds(c, s);
    }
    hide MemoryInv, Intact;
  }

  /** The decision on an item, whatever the writer did since its head was loaded. */
  lemma DecisionIsSound(c: Config, s: State, maxItems: nat)
    requires MemoryInv(c, s) && ReaderInv(c, s)
    ensures var t := ReaderStep(c, s, maxItems);
            t.log == s.log || (|t.log| == |s.log| + 1 && t.log[..|s.log|] == s.log && Sound(c, t.log[|s.log|], s.history) &&
                               t.log[|s.log|].seqNo == s.cursor)
  {
    if Intact(c, s.cursor, s.writeSeq, s.writer != Idle) && s.cursor < |s.history| {
      IntactHolds(c, s);
    }
    if s.cursor + c.capacity < s.writeSeq {
      assert SlotAt(c, s, s.cursor).tail > s.cursor;
    }
    assert s.cursor < s.writeSeq ==> s.cursor < |s.history|;
    assert |SlotAt(c, s, s.cursor).data| == c.payloadMax;
    hide MemoryInv, SlotAt;
    if s.reader.Copying? && Intact(c, s.cursor, s.writeSeq, s.writer != Idle) && |s.reader.data| == s.reader.len {
      assert s.reader.data == s.history[s.cursor];
    }
  }

  lemma ReaderKeepsLog(c: Config, s: State, maxItems: nat)
    requires MemoryInv(c, s) && ReaderInv(c, s) && LogInv(c, s)
    ensures LogInv(c, ReaderStep(c, s, maxItems))
  {
    DecisionIsSound(c, s, maxItems);
    hide Sound, MemoryInv, SlotAt, Intact;
  }

  ghost predicate Inv(c: Config, s: State) { MemoryInv(c, s) && ReaderInv(c, s) && LogInv(c, s) }

  /** The reader only reads. */
  lemma SameMemory(c: Config, s: State, t: State)
    requires MemoryInv(c, s) && t.slots == s.slots && t.writeSeq == s.writeSeq && t.history == s.history && t.writer == s.writer
    ensures MemoryInv(c, t)
  {
    hide Holds, Intact;
    forall q: nat
      ensures SlotAt(c, t, q) == SlotAt(c, s, q)
    {}
    hide SlotAt;
  }

  lemma StepKeepsInv(c: Config, s: State, a: Action)
    requires Inv(c, s)
    ensures Inv(c, Step(c, s, a))
  {
    match a
    case Write(p) =>
      WriterKeepsMemory(c, s, p);
      WriterKeepsReader(c, s, p);
      WriterKeepsLog(c, s, p);
    case Read(n) =>
      ReaderKeepsReader(c, s, n);
      ReaderKeepsLog(c, s, n);
      SameMemory(c, s, ReaderStep(c, s, n));
    case Attach(start) =>
      SameMemory(c, s, Step(c, s, a));
      hide MemoryInv;
  }

  lemma InitialInv(c: Config)
    requires c.capacity > 0
    ensures Inv(c, Initial(c))
  {
    var s := Initial(c);
    assert Shaped(c, s) && Pushed(c, s) && Underway(c, s);
  }

  lemma {:induction false} RunKeepsInv(c: Config, s: State, acts: seq<Action>)
    requires Inv(c, s) && Shaped(c, s)
    ensures Inv(c, Run(c, s, acts))
    decreases |acts|
  {
    hide Inv, Step;
    if acts == [] {
    } else {
      StepShapes(c, s, acts[0]);
      StepKeepsInv(c, s, acts[0]);
      RunKeepsInv(c, Step(c, s, acts[0]), acts[1..]);
    }
  }

  /** In every interleaving: the cursor accounts for every item as returned, skipped or torn; items come in order;
      and each decided item is sound. */
  lemma EveryPollIsSound(c: Config, acts: seq<Action>)
    requires c.capacity > 0
    ensures Shaped(c, Initial(c)) && LogInv(c, Run(c, Initial(c), acts))
  {
    InitialInv(c);
    hide Initial;
    RunKeepsInv(c, Initial(c), acts);
  }

  /** An item that was lapped while it was read, by a push that was completed, is not accepted; and an item is given
      up as torn only if its slot was taken over. */
  lemma LappedIsRejected(c: Config, acts: seq<Action>, i: nat)
    requires c.capacity > 0 && Shaped(c, Initial(c)) && i < |Run(c, Initial(c), acts).log|
    ensures var e := Run(c, Initial(c), acts).log[i];
            && (e.written > e.seqNo + c.capacity ==> e.data == None)
            && (e.data == None ==> e.written > e.seqNo + c.capacity || (e.written == e.seqNo + c.capacity && e.busy))
  {
    hide Run, Initial;
    EveryPollIsSound(c, acts);
    assert Sound(c, Run(c, Initial(c), acts).log[i], Run(c, Initial(c), acts).history);
  }
}
