/** The one interleaving the tail check does not see: the reader has loaded the head when the writer, exactly one
    round ahead, begins to overwrite the slot, and reads the tail before it is stored. */
module SharedRingRace {
  import opened Wrappers
  import opened Bytes
  import opened Slots
  import opened SharedRing

  /** The stores of one push of a single byte. */
  function PushActs(x: byte): seq<Action> {
    [Write([x]), Write([]), Write([]), Write([]), Write([])]
  }

  function FillActs(n: nat): seq<Action> {
    if n == 0 then [] else FillActs(n - 1) + PushActs(0)
  }

  const LOOK: seq<Action> := [Read(1), Read(1)]
  const OVERWRITE: seq<Action> := [Write([1]), Write([]), Write([])]
  const TAKE: seq<Action> := [Read(1), Read(1), Read(1)]

  lemma {:induction false} RunJoins(c: Config, s: State, a: seq<Action>, b: seq<Action>)
    requires Shaped(c, s)
    ensures Run(c, s, a + b) == Run(c, Run(c, s, a), b)
    decreases |a|
  {
    hide Step;
    if a == [] {
      assert a + b == b;
    } else {
      StepShapes(c, s, a[0]);
      assert (a + b)[1..] == a[1..] + b;
      RunJoins(c, Step(c, s, a[0]), a[1..], b);
    }
  }

  lemma RunFirst(c: Config, s: State, a: seq<Action>)
    requires Shaped(c, s) && a != []
    ensures Shaped(c, Step(c, s, a[0])) && Run(c, s, a) == Run(c, Step(c, s, a[0]), a[1..])
  {
    StepShapes(c, s, a[0]);
  }

  lemma RunNothing(c: Config, s: State)
    requires Shaped(c, s)
    ensures Run(c, s, []) == s
  {}

  /** `n` items, each a single 0, have been pushed, nothing is being written and the reader has not begun. */
  ghost predicate Filled(c: Config, s: State, n: nat) {
    && Inv(c, s) && s.writer == Idle && s.writeSeq == n && |s.history| == n
    && (forall i :: 0 <= i < n ==> s.history[i] == [0])
    && s.reader == Between && s.log == []
  }

  lemma PushFills(c: Config, s: State, n: nat)
    requires Filled(c, s, n) && c.payloadMax > 0
    ensures Shaped(c, s) && Filled(c, Run(c, s, PushActs(0)), n + 1)
  {
    var a := PushActs(0);
    assert Shaped(c, s);
    RunKeepsInv(c, s, a);
    hide Run, Inv, SlotAt, Stored;
    RunFirst(c, s, a);
    var s1 := Step(c, s, a[0]);
    RunFirst(c, s1, a[1..]);
    var s2 := Step(c, s1, a[1]);
    RunFirst(c, s2, a[1..][1..]);
    DataIsThere(c, s2);
    var s3 := Step(c, s2, a[2]);
    RunFirst(c, s3, a[1..][1..][1..]);
    var s4 := Step(c, s3, a[3]);
    RunFirst(c, s4, a[1..][1..][1..][1..]);
    RunNothing(c, Step(c, s4, a[4]));
    assert a[1..][1..][1..][1..][1..] == [];
    assert s1.writer == Writing([0], HeadStored) && s2.writer == Writing([0], Copied(0));
    assert s3.writer == Writing([0], Copied(1)) && s4.writer == Writing([0], TailStored);
  }

  lemma DataIsThere(c: Config, s: State)
    requires Shaped(c, s)
    ensures |SlotAt(c, s, s.writeSeq).data| == c.payloadMax
  {}

  lemma {:induction false} FillsUp(c: Config, n: nat)
    requires c.capacity > 0 && c.payloadMax > 0
    ensures Shaped(c, Initial(c)) && Filled(c, Run(c, Initial(c), FillActs(n)), n)
  {
    NothingFilled(c);
    hide Filled, Run, PushActs, Initial, Shaped;
    if n > 0 {
      FillsUp(c, n - 1);
      RunJoins(c, Initial(c), FillActs(n - 1), PushActs(0));
      PushFills(c, Run(c, Initial(c), FillActs(n - 1)), n - 1);
    }
  }

  lemma NothingFilled(c: Config)
    requires c.capacity > 0
    ensures Shaped(c, Initial(c)) && Filled(c, Run(c, Initial(c), []), 0)
  {
    InitialInv(c);
  }

  /** One round after item `q`, with the reader about to read it: its slot still holds it. */
  lemma AttachedAt(c: Config, s: State, q: nat)
    requires Filled(c, s, q + c.capacity)
    ensures Shaped(c, s)
    ensures var t := Step(c, s, Attach(q));
            && Shaped(c, t) && t.cursor == q && t.reader == Between && t.log == [] && t.history == s.history
            && t.writer == Idle && t.writeSeq == q + c.capacity && t.history[q] == [0]
            && Holds(t.slots[q % c.capacity], q, [0])
  {
    hide Holds;
    assert MemoryInv(c, s);
    assert Intact(c, q, s.writeSeq, false);
    assert Holds(SlotAt(c, s, q), q, s.history[q]);
    assert s.history[q] == [0];
  }

  /** Item `q` is in its slot, one round is published, and the reader has loaded the head. */
  ghost predicate Looked(c: Config, s: State, q: nat) {
    && Shaped(c, s) && s.cursor == q && s.reader == HeadLoaded(q + c.capacity, 1, q) && s.log == []
    && s.writeSeq == q + c.capacity && s.slots[q % c.capacity].tail == q
  }

  lemma ReaderLooks(c: Config, s: State, q: nat)
    requires Shaped(c, s) && s.cursor == q && s.reader == Between && s.log == [] && s.writer == Idle
    requires s.writeSeq == q + c.capacity && Holds(s.slots[q % c.capacity], q, [0])
    ensures var t := Run(c, s, LOOK); Looked(c, t, q) && t.writer == Idle && t.history == s.history
  {
    RunOfTwo(c, s, Read(1), Read(1));
    hide Run;
  }

  lemma WriterOverwrites(c: Config, s: State, q: nat)
    requires Looked(c, s, q) && s.writer == Idle && c.payloadMax > 0
    ensures var t := Run(c, s, OVERWRITE);
            && Looked(c, t, q) && t.writer != Idle && t.history == s.history + [[1]]
            && t.slots[q % c.capacity].len == 1 && t.slots[q % c.capacity].data[0] == 1
  {
    var k := q % c.capacity;
    SameSlotNextRound(q, c.capacity);
    RunFirst(c, s, OVERWRITE);
    hide Run;
    var s1 := Step(c, s, Write([1]));
    assert s1.writer == Writing([1], HeadStored) && s1.slots[k].tail == q;
    RunOfTwo(c, s1, Write([]), Write([]));
    var s2 := Step(c, s1, Write([]));
    assert s2.writer == Writing([1], Copied(0)) && s2.slots[k].len == 1 && s2.slots[k].tail == q;
  }

  lemma ReaderTakes(c: Config, s: State, q: nat)
    requires Looked(c, s, q) && s.writer != Idle && c.payloadMax > 0
    requires var slot := s.slots[q % c.capacity]; slot.len == 1 && slot.data[0] == 1
    ensures var t := Run(c, s, TAKE); t.log == [Entry(q, Some([1]), q + c.capacity, true)] && t.history == s.history
  {
    RunFirst(c, s, TAKE);
    hide Run;
    var s1 := Step(c, s, Read(1));
    assert s1.reader == Copying(q + c.capacity, 1, 1, []);
    RunOfTwo(c, s1, Read(1), Read(1));
    var s2 := Step(c, s1, Read(1));
    assert s2.reader == Copying(q + c.capacity, 1, 1, [1]);
  }

  lemma RunOfTwo(c: Config, s: State, a: Action, b: Action)
    requires Shaped(c, s)
    ensures Shaped(c, Step(c, s, a)) && Run(c, s, [a, b]) == Step(c, Step(c, s, a), b)
  {
    hide Step, Run;
    RunFirst(c, s, [a, b]);
    assert [a, b][1..] == [b] && [b][1..] == [];
    RunFirst(c, Step(c, s, a), [b]);
    RunNothing(c, Step(c, Step(c, s, a), b));
  }

  /** The reader loads the head, the writer begins to overwrite, the reader goes on. */
  lemma RaceAccepts(c: Config, s: State, q: nat)
    requires Shaped(c, s) && s.cursor == q && s.reader == Between && s.log == [] && s.writer == Idle
    requires s.writeSeq == q + c.capacity && Holds(s.slots[q % c.capacity], q, [0]) && c.payloadMax > 0
    ensures var t := Run(c, s, LOOK + OVERWRITE + TAKE);
            t.log == [Entry(q, Some([1]), q + c.capacity, true)] && t.history == s.history + [[1]]
  {
    hide Holds, Run, Looked;
    RunJoins(c, s, LOOK, OVERWRITE);
    RunJoins(c, s, LOOK + OVERWRITE, TAKE);
    ReaderLooks(c, s, q);
    WriterOverwrites(c, Run(c, s, LOOK), q);
    ReaderTakes(c, Run(c, s, LOOK + OVERWRITE), q);
  }

  /** In a run, item `q` was decided when `written` items were published and the writer was, or was not, busy. */
  ghost predicate DecidedAt(c: Config, acts: seq<Action>, i: nat, q: nat, written: nat, busy: bool)
    requires Shaped(c, Initial(c))
  {
    var s := Run(c, Initial(c), acts);
    i < |s.log| && q < |s.history| && s.log[i].seqNo == q && s.log[i].written == written && s.log[i].busy == busy
  }

  /** For every ring and every item there is a run in which the item is accepted with bytes of the one that is
      overwriting it. */
  lemma TornItemCanBeAccepted(c: Config, q: nat) returns (acts: seq<Action>)
    requires c.capacity > 0 && c.payloadMax > 0
    ensures Shaped(c, Initial(c)) && DecidedAt(c, acts, 0, q, q + c.capacity, true)
    ensures var s := Run(c, Initial(c), acts); s.log[0].data == Some([1]) && s.history[q] == [0]
  {
    var before := FillActs(q + c.capacity) + [Attach(q)];
    AttachedRun(c, q);
    hide Initial, FillActs, Run, Holds;
    RunJoins(c, Initial(c), before, LOOK + OVERWRITE + TAKE);
    RaceAccepts(c, Run(c, Initial(c), before), q);
    acts := before + (LOOK + OVERWRITE + TAKE);
  }

  lemma AttachedRun(c: Config, q: nat)
    requires c.capacity > 0 && c.payloadMax > 0
    ensures Shaped(c, Initial(c))
    ensures var t := Run(c, Initial(c), FillActs(q + c.capacity) + [Attach(q)]);
            && t.cursor == q && t.reader == Between && t.log == [] && t.writer == Idle && t.writeSeq == q + c.capacity
            && q < |t.history| && t.history[q] == [0] && Holds(t.slots[q % c.capacity], q, [0])
  {
    var fill, attach := FillActs(q + c.capacity), [Attach(q)];
    FillsUp(c, q + c.capacity);
    hide Initial, FillActs, Filled, Holds, Step;
    RunJoins(c, Initial(c), fill, attach);
    var s := Run(c, Initial(c), fill);
    AttachedAt(c, s, q);
    RunFirst(c, s, attach);
    RunNothing(c, Step(c, s, Attach(q)));
  }

  /** When an accepted item is sure to be exact: every accepted item decided at this moment, in every run, has the
      bytes that were pushed, if and only if it is not the item that a push under way overwrites. */
  lemma AcceptedExactlyUnlessOverwritten(c: Config, q: nat, written: nat, busy: bool)
    requires c.capacity > 0 && c.payloadMax > 0
    ensures Shaped(c, Initial(c))
    ensures (forall acts, i: nat :: DecidedAt(c, acts, i, q, written, busy) ==>
              var s := Run(c, Initial(c), acts); s.log[i].data.Some? ==> s.log[i].data.value == s.history[q])
            <==> !(written == q + c.capacity && busy)
  {
    InitialInv(c);
    assert Shaped(c, Initial(c));
    hide Inv, Initial, Run;
    if written == q + c.capacity && busy {
      var acts := TornItemCanBeAccepted(c, q);
      assert DecidedAt(c, acts, 0, q, written, busy);
    } else {
      forall acts, i: nat | DecidedAt(c, acts, i, q, written, busy)
        ensures var s := Run(c, Initial(c), acts); s.log[i].data.Some? ==> s.log[i].data.value == s.history[q]
      {
        EveryPollIsSound(c, acts);
        var s := Run(c, Initial(c), acts);
        assert Sound(c, s.log[i], s.history);
      }
    }
  }
}
