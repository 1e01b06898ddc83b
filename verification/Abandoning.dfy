/** Frames that wait beyond a gap: each is handed over in its turn, or an acknowledgement gives it up for good. */
module Abandoning {
  import opened Wrappers
  import opened Feed
  import opened Publishing
  import opened Subscribing
  import opened Recovery

  /** Frame `k` is held and still to be handed over. */
  ghost predicate Waiting(s: Sub, k: nat) {
    s.expected.Some? && k in s.pending && s.expected.value <= k
  }

  /** Frame `k` is among those handed over since the snapshot. */
  ghost predicate HandedOver(s: Sys, k: nat) {
    |s.snaps| <= |s.sub.out| && Holds(s.sub.out[|s.snaps|..], k)
  }

  /** The next recovery frame is a receipt that names missing numbers and an oldest one above `k`. */
  ghost predicate GivesUp(r: Body, k: nat) {
    r.Receipt? && r.unavailable > 0 && k < r.oldest
  }

  ghost predicate Abandons(s: Sys, e: Event, k: nat) {
    e.RecoveryFrame? && s.down != [] && !IsSnapshotFlagged(s.down[0]) && s.down[0].msgType == MSG_ACK && GivesUp(s.down[0].body, k)
  }

  // ---- The subscriber ----

  ghost predicate Numbered(s: Sub) {
    forall k :: k in s.pending ==> s.pending[k].number == k
  }

  /** From `s` to `t` only frames from the expected number on are handed over, and of the waiting ones all below the
      new expected number, unless they are below `gone`. */
  ghost predicate HandsOver(s: Sub, t: Sub, gone: nat) {
    && s.expected.Some? && t.expected.Some? && s.expected.value <= t.expected.value && s.out <= t.out
    && (forall m :: m in t.out[|s.out|..] ==> s.expected.value <= m.number && gone <= m.number)
    && (forall k: nat :: Waiting(s, k) && gone <= k < t.expected.value ==> Holds(t.out[|s.out|..], k))
    && (forall k: nat :: Waiting(s, k) && t.expected.value <= k ==> k in t.pending)
    && gone <= t.expected.value
  }

  lemma DrainedHandsOver(s: Sub)
    requires s.expected.Some? && Numbered(s)
    ensures HandsOver(s, Drained(s), 0)
  {
    hide Drained;
    DrainHandsOverTheRun(s);
    var t, e := Drained(s), s.expected.value;
    var added := t.out[|s.out|..];
    assert forall i :: 0 <= i < |added| ==> added[i] == s.pending[e + i];
    forall k: nat | Waiting(s, k) && k < t.expected.value
      ensures Holds(added, k)
    {
      assert added[k - e].number == k;
    }
  }

  lemma NothingHandedOver(s: Sub, t: Sub)
    requires s.expected.Some? && t.expected == s.expected && t.out == s.out && s.pending.Keys <= t.pending.Keys
    ensures HandsOver(s, t, 0)
  {
    assert t.out[|s.out|..] == [];
  }

  lemma ObservedHandsOver(s: Sub, m: Msg, via: bool, t0: real, t1: real, delay: real)
    requires s.expected.Some? && Numbered(s) && s.expected.value !in s.pending
    ensures HandsOver(s, Observed(s, m, via, t0, t1, delay), 0)
  {
    hide Drained, ConsideredAll, MissingRuns, HandsOver;
    var t := Observed(s, m, via, t0, t1, delay);
    if m.number == s.expected.value {
      DrainedHandsOver(Delivered(s, m).(expected := Some(m.number + 1)));
      FirstHandedOver(s, m, t);
    } else {
      NothingHandedOver(s, t);
    }
  }

  /** The expected frame is handed over, and then what it releases. */
  lemma FirstHandedOver(s: Sub, m: Msg, t: Sub)
    requires s.expected == Some(m.number) && m.number !in s.pending
    requires HandsOver(Delivered(s, m).(expected := Some(m.number + 1)), t, 0)
    ensures HandsOver(s, t, 0)
  {
    var d := Delivered(s, m).(expected := Some(m.number + 1));
    var added, rest := t.out[|s.out|..], t.out[|d.out|..];
    assert added == [m] + rest;
    forall k: nat | Waiting(s, k)
      ensures Waiting(d, k)
      ensures k < t.expected.value ==> Holds(added, k)
    {
      assert Waiting(d, k);
      if k < t.expected.value {
        var x :| x in rest && x.number == k;
        assert x in added;
      }
    }
  }

  lemma AcknowledgedHandsOver(s: Sub, r: Body)
    requires s.expected.Some? && Numbered(s) && r.Receipt?
    ensures HandsOver(s, Acknowledged(s, r), if r.unavailable > 0 then r.oldest else 0)
  {
    hide Drained;
    var t := s.(outstanding := s.outstanding - {(r.from, r.to)},
                stats := s.stats.(retransFrames := s.stats.retransFrames + r.sent));
    if r.unavailable > 0 && s.expected.value < r.oldest {
      var u := t.(expected := Some(r.oldest),
                  gapSeen := map g | g in t.gapSeen && g >= r.oldest :: t.gapSeen[g],
                  stats := t.stats.(unrecoverable := t.stats.unrecoverable + (r.oldest - t.expected.value)));
      DrainedHandsOver(u);
      assert forall k: nat :: Waiting(s, k) && r.oldest <= k ==> Waiting(u, k);
    } else {
      NothingHandedOver(s, t);
    }
  }

  /** An acknowledgement passes a waiting frame without handing it over exactly when it reports missing numbers and
      what the publisher still holds begins above that frame. */
  lemma AcknowledgementGivesUpExactly(s: Sub, r: Body, k: nat)
    requires Numbered(s) && Waiting(s, k) && r.Receipt?
    ensures var t := Acknowledged(s, r);
            && t.expected.Some? && s.out <= t.out
            && (k < t.expected.value && !Holds(t.out[|s.out|..], k) <==> r.unavailable > 0 && k < r.oldest)
  {
    hide Acknowledged;
    AcknowledgedHandsOver(s, r);
  }

  // ---- One step of the system ----

  lemma StepHandsOver(s: Sys, e: Event, delay: real)
    requires Inv(s) && s.sub.expected.Some?
    ensures Numbered(s.sub) && Step(s, e, delay).snaps == s.snaps
    ensures var gone := if e.RecoveryFrame? && s.down != [] && s.down[0].msgType == MSG_ACK && s.down[0].body.Receipt? && s.down[0].body.unavailable > 0
                        then s.down[0].body.oldest else 0;
            HandsOver(s.sub, Step(s, e, delay).sub, gone)
  {
    hide PubInv, IsSnapshot, LogInv, Observed, ConsideredAll, MissingRuns, Acknowledged, HandsOver, Waiting;
    var t := Step(s, e, delay);
    NothingHandedOver(s.sub, s.sub);
    match e
    case DatagramFrame(d, i, t0, t1) =>
      if d < |s.pub.sent| && i < |s.pub.sent[d]| {
        ObservedHandsOver(s.sub, s.pub.sent[d][i], false, t0, t1, delay);
      }
    case Timer(now) =>
      NothingHandedOver(s.sub, t.sub);
    case RecoveryFrame(t0, t1) =>
      if s.down != [] {
        var m := s.down[0];
        assert UnderWay(s.pub.history, Gone(s.pub), m);
        if m.msgType == MSG_ACK {
          if m.body.Receipt? {
            AcknowledgedHandsOver(s.sub, m.body);
          }
        } else {
          ObservedHandsOver(s.sub, m, true, t0, t1, delay);
        }
      }
    case _ =>
  }

  /** The log after a step is the log before it and what the step handed over. */
  lemma LogAfter(s: Sys, t: Sys, k: nat)
    requires s.snaps == t.snaps && |s.snaps| <= |s.sub.out| && s.sub.out <= t.sub.out
    ensures HandedOver(t, k) <==> HandedOver(s, k) || Holds(t.sub.out[|s.sub.out|..], k)
  {
    var log, more := s.sub.out[|s.snaps|..], t.sub.out[|s.sub.out|..];
    assert t.sub.out[|s.snaps|..] == log + more;
    if Holds(log, k) {
      var m :| m in log && m.number == k;
      assert m in log + more;
    }
    if Holds(more, k) {
      var m :| m in more && m.number == k;
      assert m in log + more;
    }
  }

  /** What was handed over is below the expected number. */
  lemma WaitingIsNotHandedOver(s: Sys, k: nat)
    requires Inv(s) && Waiting(s.sub, k)
    ensures !HandedOver(s, k)
  {
    hide PubInv, IsSnapshot;
  }

  /** In every state that can be reached: after any step a waiting frame still waits, or has been handed over, or the
      step was an acknowledgement that gives it up. */
  lemma FateOfAWaitingFrame(s: Sys, e: Event, delay: real, k: nat)
    requires Inv(s) && Waiting(s.sub, k)
    ensures var t := Step(s, e, delay);
            && Inv(t) && t.sub.expected.Some?
            && (Abandons(s, e, k) <==> !Waiting(t.sub, k) && !HandedOver(t, k))
            && (Waiting(t.sub, k) ==> !HandedOver(t, k))
            && (!Waiting(t.sub, k) ==> k < t.sub.expected.value)
  {
    var t := Step(s, e, delay);
    StepKeepsInv(s, e, delay);
    StepHandsOver(s, e, delay);
    WaitingIsNotHandedOver(s, k);
    LiveLog(s);
    if e.RecoveryFrame? && s.down != [] {
      assert !IsSnapshotFlagged(s.down[0]);
    }
    hide Inv, Step, HandedOver;
    LogAfter(s, t, k);
    if Waiting(t.sub, k) {
      WaitingIsNotHandedOver(t, k);
    }
  }

  lemma LiveLog(s: Sys)
    requires Inv(s) && s.sub.expected.Some?
    ensures |s.snaps| <= |s.sub.out|
    ensures s.down != [] ==> !IsSnapshotFlagged(s.down[0])
  {
    hide PubInv, IsSnapshot;
    if s.down != [] {
      assert UnderWay(s.pub.history, Gone(s.pub), s.down[0]);
    }
  }

  // ---- Runs ----

  /** What is passed stays as it is: handed over or not. */
  lemma PassedStays(s: Sys, e: Event, delay: real, k: nat)
    requires Inv(s) && s.sub.expected.Some? && k < s.sub.expected.value
    ensures var t := Step(s, e, delay);
            Inv(t) && t.sub.expected.Some? && k < t.sub.expected.value && (HandedOver(t, k) <==> HandedOver(s, k))
  {
    var t := Step(s, e, delay);
    StepKeepsInv(s, e, delay);
    StepHandsOver(s, e, delay);
    LiveLog(s);
    hide Inv, Step, HandedOver;
    LogAfter(s, t, k);
  }

  /** An acknowledgement at some step of the run gives up frame `k` while it waits. */
  ghost predicate AbandonedOnTheWay(s: Sys, es: seq<Event>, delay: real, k: nat) {
    exists j: nat :: j < |es| && AbandonedAt(s, es, delay, k, j)
  }

  ghost predicate AbandonedAt(s: Sys, es: seq<Event>, delay: real, k: nat, j: nat)
    requires j < |es|
  {
    Waiting(Recovery.Run(s, es[..j], delay).sub, k) && Abandons(Recovery.Run(s, es[..j], delay), es[j], k)
  }

  lemma AbandonedEarlier(s: Sys, es: seq<Event>, delay: real, k: nat)
    requires es != []
    ensures var n := |es| - 1;
            AbandonedOnTheWay(s, es, delay, k) <==> AbandonedOnTheWay(s, es[..n], delay, k) || AbandonedAt(s, es, delay, k, n)
  {
    hide Recovery.Run, Abandons, Waiting;
    var n := |es| - 1;
    assert forall j: nat :: j < n ==> es[..n][..j] == es[..j] && es[..n][j] == es[j];
    assert forall j: nat :: j < n ==> (AbandonedAt(s, es[..n], delay, k, j) <==> AbandonedAt(s, es, delay, k, j));
  }

  /** In every run from a state that can be reached: a frame that waits there ends as exactly one of three, and it is
      passed without ever being handed over exactly when some acknowledgement on the way named missing numbers and an
      oldest one above it while it waited. */
  lemma {:induction false} FateInEveryRun(s: Sys, es: seq<Event>, delay: real, k: nat)
    requires Inv(s) && Waiting(s.sub, k)
    ensures var t := Recovery.Run(s, es, delay);
            && Inv(t) && t.sub.expected.Some?
            && (AbandonedOnTheWay(s, es, delay, k) <==> !Waiting(t.sub, k) && !HandedOver(t, k))
            && (Waiting(t.sub, k) ==> !HandedOver(t, k))
            && (!Waiting(t.sub, k) ==> k < t.sub.expected.value)
    decreases |es|
  {
    hide Inv, Step, HandedOver, Abandons;
    if es == [] {
      WaitingIsNotHandedOver(s, k);
    } else {
      var front, e := Recovery.Run(s, es[..|es| - 1], delay), es[|es| - 1];
      FateInEveryRun(s, es[..|es| - 1], delay, k);
      AbandonedEarlier(s, es, delay, k);
      hide AbandonedOnTheWay;
      if Waiting(front.sub, k) {
        FateOfAWaitingFrame(front, e, delay, k);
      } else {
        PassedStays(front, e, delay, k);
      }
    }
  }

  /** The same, from the start: `past` leads to a state in which frame `k` waits, and `es` is what follows. */
  lemma GivenUpExactly(size: nat, maxDatagram: nat, past: seq<Event>, es: seq<Event>, delay: real, k: nat)
    requires size > 0 && Waiting(Recovery.Run(Init(size, maxDatagram), past, delay).sub, k)
    ensures var s := Recovery.Run(Init(size, maxDatagram), past, delay);
            var t := Recovery.Run(s, es, delay);
            AbandonedOnTheWay(s, es, delay, k) <==> !Waiting(t.sub, k) && !HandedOver(t, k)
  {
    hide Inv, Step, HandedOver, AbandonedOnTheWay, Init;
    RunKeepsInv(size, maxDatagram, past, delay);
    FateInEveryRun(Recovery.Run(Init(size, maxDatagram), past, delay), es, delay, k);
  }

  // ---- It does happen ----

  const EMPTY: Body := Data([])

  /** Three frames with a ring for one; the second arrives alone, the first is asked for and gone. */
  const EVENTS: seq<Event> := [
    Serve([]), RecoveryFrame(1.0, 1.0), PublishFrame(0, 0, EMPTY), PublishFrame(0, 0, EMPTY), PublishFrame(0, 0, EMPTY),
    FlushFrames, DatagramFrame(0, 1, 1.0, 1.0), Serve([])]

  ghost function Before(n: nat): Sys
    requires n <= 8
  {
    Recovery.Run(Init(1, 1000), EVENTS[..n], 0.0)
  }

  lemma BeforeStep(n: nat)
    requires n < 8
    ensures Before(n + 1) == Step(Before(n), EVENTS[n], 0.0)
  {
    hide Step, Init;
    assert EVENTS[..n + 1][..n] == EVENTS[..n];
  }

  lemma Snapshotted()
    ensures var s := Before(2);
            && s.pub == Pub(1, 1000, [], [], []) && s.served == 1 && s.down == [] && s.snaps == []
            && s.sub == START.(expected := Some(0))
  {
    BeforeStep(0);
    BeforeStep(1);
    assert Before(0) == Init(1, 1000);
    assert Before(1).down == [SnapshotEnd(0, 0)];
    var none := set k | k in START.pending && k < 0;
    assert none == {};
    assert START.pending - none == START.pending;
    assert Begun(START, 0) == START.(expected := Some(0));
  }

  function Frames(n: nat): seq<Msg> {
    seq(n, (i: int) requires 0 <= i => Frame(i))
  }

  lemma {:induction false} FramesFit(n: nat)
    ensures TotalSize(Frames(n)) == WireSize(Frame(0)) * n
  {
    if n == 0 {
    } else {
      FramesFit(n - 1);
      assert Frames(n)[..n - 1] == Frames(n - 1);
    }
  }

  /** The publisher after `n` frames. */
  function Filling(n: nat): Pub {
    Pub(1, 1000, Frames(n), Frames(n), [])
  }

  lemma FramePublished(n: nat)
    requires n < 3
    ensures Publishable(Frame(n)) && Published(Filling(n), 0, 0, EMPTY) == Filling(n + 1)
  {
    FramesFit(n);
    assert Frames(n + 1) == Frames(n) + [Frame(n)];
  }

  lemma PublishStep(s: Sys, n: nat)
    requires n < 3 && s.pub == Filling(n)
    ensures Step(s, PublishFrame(0, 0, EMPTY), 0.0) == s.(pub := Filling(n + 1))
  {
    FramePublished(n);
    assert |Frames(n)| == n;
    hide Frames, Published, Publishable;
  }

  lemma Sent()
    ensures Before(6) == Before(2).(pub := Pub(1, 1000, Frames(3), [], [Frames(3)]))
  {
    Snapshotted();
    assert Before(2).pub == Filling(0);
    BeforeStep(2);
    BeforeStep(3);
    BeforeStep(4);
    BeforeStep(5);
    PublishStep(Before(2), 0);
    PublishStep(Before(3), 1);
    PublishStep(Before(4), 2);
    assert Frames(3) != [];
    assert Step(Before(5), FlushFrames, 0.0) == Before(5).(pub := Flushed(Before(5).pub));
    hide Before, Step, Frames;
  }

  /** The second frame is parked, and the first is asked for at once. */
  lemma SecondParked(s: Sub)
    requires s == START.(expected := Some(0))
    ensures var t := Observed(s, Frame(1), false, 1.0, 1.0, 0.0);
            t.expected == Some(0) && t.pending == map[1 := Frame(1)] && t.requests == [(0, 0)]
  {
    var p := Parked(s, Frame(1), false, 1.0);
    assert p.pending == map[1 := Frame(1)] && p.expected == Some(0) && p.gapSeen == map[0 := 1.0];
    var rs := MissingRuns(p.pending.Keys, 0, 1);
    assert RunEnd(p.pending.Keys, 0, 1) == 0;
    assert rs == [(0, 0)] + MissingRuns(p.pending.Keys, 1, 1) == [(0, 0)];
    assert Considered(p, (0, 0), 1.0, 0.0).requests == [(0, 0)];
    assert ConsideredAll(p, rs, 1.0, 0.0) == ConsideredAll(Considered(p, (0, 0), 1.0, 0.0), [], 1.0, 0.0);
  }

  /** Two frames have pushed frame 0 out of the ring. */
  lemma FirstRefused(p: Pub)
    requires p.size == 1 && |p.history| == 3
    ensures Response(p, 0, 0) == [Msg(MSG_ACK, 0, 0, Receipt(0, 0, 0, 1, 2, 3))]
  {}

  lemma SecondArrives(s: Sys)
    requires s.pub == Pub(1, 1000, Frames(3), [], [Frames(3)])
    ensures Step(s, DatagramFrame(0, 1, 1.0, 1.0), 0.0) == s.(sub := Observed(s.sub, Frame(1), false, 1.0, 1.0, 0.0))
  {
    hide Observed;
  }

  lemma FirstAnswered(s: Sys)
    requires s.served == 1 && s.down == [] && s.sub.requests == [(0, 0)] && s.pub.size == 1 && |s.pub.history| == 3
    ensures Step(s, Serve([]), 0.0).sub == s.sub
    ensures Step(s, Serve([]), 0.0).down == [Msg(MSG_ACK, 0, 0, Receipt(0, 0, 0, 1, 2, 3))]
  {
    FirstRefused(s.pub);
    hide Response;
  }

  /** Frame 1 waits and the acknowledgement that comes next gives it up. */
  lemma WaitingFrameIsGivenUp()
    ensures Waiting(Before(8).sub, 1) && Abandons(Before(8), RecoveryFrame(1.0, 1.0), 1)
  {
    Sent();
    Snapshotted();
    BeforeStep(6);
    BeforeStep(7);
    SecondParked(Before(6).sub);
    SecondArrives(Before(6));
    FirstAnswered(Before(7));
    hide Before, Step, Frames, Observed;
  }
}
