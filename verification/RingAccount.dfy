/** What a reader of the shared ring passes over: only items that the writer had lapped. */
module RingAccount {
  import opened Wrappers
  import opened Bytes
  import opened SharedRing

  /** Item `q` was decided, or had been lapped: a whole round of later items is published. */
  ghost predicate Accounted(c: Config, s: State, q: nat) {
    (exists i :: 0 <= i < |s.log| && s.log[i].seqNo == q) || q + c.capacity < s.writeSeq
  }

  ghost predicate AllAccounted(c: Config, s: State) {
    s.start <= s.cursor && forall q: nat :: s.start <= q < s.cursor ==> Accounted(c, s, q)
  }

  lemma AccountedStays(c: Config, s: State, t: State, q: nat)
    requires Accounted(c, s, q) && s.log <= t.log && s.writeSeq <= t.writeSeq
    ensures Accounted(c, t, q)
  {
    if i :| 0 <= i < |s.log| && s.log[i].seqNo == q {
      assert t.log[i].seqNo == q;
    }
  }

  lemma WriterKeepsAccount(c: Config, s: State, payload: seq<byte>)
    requires Shaped(c, s)
    ensures var t := WriterStep(c, s, payload);
            t.log == s.log && t.cursor == s.cursor && t.start == s.start && s.writeSeq <= t.writeSeq <= s.writeSeq + 1
  {}

  /** A load moves the cursor over one decided item, or, at the start of a poll, over lapped items only. */
  lemma ReaderKeepsAccount(c: Config, s: State, maxItems: nat)
    requires Shaped(c, s)
    ensures var t := ReaderStep(c, s, maxItems);
            && t.writeSeq == s.writeSeq && t.start == s.start && s.log <= t.log && s.cursor <= t.cursor
            && (t.cursor == s.cursor ||
                (t.cursor == s.cursor + 1 && |t.log| == |s.log| + 1 && t.log[|s.log|].seqNo == s.cursor) ||
                (s.reader == Between && t.log == s.log && t.cursor == s.writeSeq - c.capacity))
  {}

  lemma StepKeepsAccount(c: Config, s: State, a: Action)
    requires Shaped(c, s) && AllAccounted(c, s)
    ensures AllAccounted(c, Step(c, s, a))
  {
    hide Accounted, WriterStep, ReaderStep;
    var t := Step(c, s, a);
    match a
    case Write(p) =>
      WriterKeepsAccount(c, s, p);
      forall q: nat | t.start <= q < t.cursor
        ensures Accounted(c, t, q)
      {
        AccountedStays(c, s, t, q);
      }
    case Read(n) =>
      ReaderKeepsAccount(c, s, n);
      forall q: nat | t.start <= q < t.cursor
        ensures Accounted(c, t, q)
      {
        if q < s.cursor {
          AccountedStays(c, s, t, q);
        } else {
          NowAccounted(c, s, t, q);
        }
      }
    case Attach(_) =>
  }

  lemma NowAccounted(c: Config, s: State, t: State, q: nat)
    requires s.cursor <= q < t.cursor && t.writeSeq == s.writeSeq
    requires (t.cursor == s.cursor + 1 && |t.log| == |s.log| + 1 && t.log[|s.log|].seqNo == s.cursor) ||
             t.cursor == s.writeSeq - c.capacity
    ensures Accounted(c, t, q)
  {}

  lemma {:induction false} RunKeepsAccount(c: Config, s: State, acts: seq<Action>)
    requires Shaped(c, s) && AllAccounted(c, s)
    ensures AllAccounted(c, Run(c, s, acts))
    decreases |acts|
  {
    hide AllAccounted, Step;
    if acts == [] {
    } else {
      StepShapes(c, s, acts[0]);
      StepKeepsAccount(c, s, acts[0]);
      RunKeepsAccount(c, Step(c, s, acts[0]), acts[1..]);
    }
  }

  /** In every interleaving: each item from where the reader began up to its cursor was decided one way or the other, or
      had been lapped by a whole round of published items. */
  lemma SkippedWereLapped(c: Config, acts: seq<Action>, q: nat)
    requires c.capacity > 0
    ensures Shaped(c, Initial(c))
    ensures var s := Run(c, Initial(c), acts); s.start <= q < s.cursor ==> Accounted(c, s, q)
  {
    hide Run;
    assert Shaped(c, Initial(c)) && AllAccounted(c, Initial(c));
    RunKeepsAccount(c, Initial(c), acts);
  }
}
