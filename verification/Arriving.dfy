/** Datagram frames that arrive before the snapshot: they are kept, and none of them is missed once it ends. */
module Arriving {
  import opened Wrappers
  import opened Feed
  import opened Numbers
  import opened Publishing
  import opened Subscribing
  import opened Recovery
  import opened Progress
  import opened Answering
  import opened Converging

  const KEPT_BEFORE_SNAPSHOT: nat := 200_000

  ghost predicate Early(s: Sys) { s.sub.expected == None }

  ghost function Above(s: Sub, k: nat): set<nat> {
    set x | x in s.pending && x > k
  }

  /** So many greater numbers wait that frame `k` may have had to go. */
  ghost predicate Crowded(s: Sub, k: nat) { |Above(s, k)| >= KEPT_BEFORE_SNAPSHOT }

  /** The numbers waiting after one more frame: only the lowest goes, and only when there are too many. */
  ghost function KeptWith(waiting: set<nat>, k: nat): set<nat> {
    var all := waiting + {k};
    if |all| > KEPT_BEFORE_SNAPSHOT then all - {Least(all)} else all
  }

  /** A datagram frame that arrives early is kept beside those that wait; nothing else changes. */
  lemma EarlyFrameIsKept(s: Sys, d: nat, i: nat, t0: real, t1: real, delay: real)
    requires Early(s) && d < |s.pub.sent| && i < |s.pub.sent[d]|
    ensures var m, t := s.pub.sent[d][i], Step(s, DatagramFrame(d, i, t0, t1), delay);
            && t == s.(sub := s.sub.(pending := t.sub.pending))
            && t.sub.pending.Keys == KeptWith(s.sub.pending.Keys, m.number)
            && forall k :: k in t.sub.pending ==> t.sub.pending[k] == if k == m.number then m else s.sub.pending[k]
  {
    var m := s.pub.sent[d][i];
    assert s.sub.pending[m.number := m].Keys == s.sub.pending.Keys + {m.number};
    SameSize(s.sub.pending[m.number := m]);
  }

  lemma SameSize(m: map<nat, Msg>)
    ensures |m.Keys| == |m|
  {}

  /** What is not the lowest of too many stays. */
  lemma OnlyTheLowestGoes(waiting: set<nat>, n: nat, k: nat)
    requires k in waiting || k == n
    ensures k in KeptWith(waiting, n) || forall x :: x in KeptWith(waiting, n) ==> x > k
    ensures k !in KeptWith(waiting, n) ==> |KeptWith(waiting, n)| >= KEPT_BEFORE_SNAPSHOT
  {}

  // ---- One step before the snapshot has ended ----

  lemma DatagramEarly(s: Sys, d: nat, i: nat, t0: real, t1: real, delay: real, k: nat)
    requires Early(s) && d < |s.pub.sent| && i < |s.pub.sent[d]| && (k in s.sub.pending || k == s.pub.sent[d][i].number)
    ensures var t := Step(s, DatagramFrame(d, i, t0, t1), delay);
            Early(t) && (k in t.sub.pending || Crowded(t.sub, k))
  {
    EarlyFrameIsKept(s, d, i, t0, t1, delay);
    hide Step;
    var t := Step(s, DatagramFrame(d, i, t0, t1), delay);
    var n := s.pub.sent[d][i].number;
    OnlyTheLowestGoes(s.sub.pending.Keys, n, k);
    hide KeptWith;
    if k !in t.sub.pending {
      assert Above(t.sub, k) == t.sub.pending.Keys;
    }
  }

  lemma BegunHasAll(s: Sub, next: nat, k: nat)
    requires k in s.pending && next <= k
    ensures Have(Begun(s, next), k) && Begun(s, next).expected.Some?
  {
    hide Drained;
    var stale := set j | j in s.pending && j < next;
    DrainHandsOverTheRun(s.(expected := Some(next), pending := s.pending - stale,
                            stats := s.stats.(discarded := s.stats.discarded + |stale|)));
  }

  lemma EndedHasAll(s: Sub, next: nat, now: real, delay: real, k: nat)
    requires k in s.pending && next <= k
    ensures Have(SnapshotEnded(s, next, now, delay), k)
  {
    hide Begun, ConsideredAll, MissingRuns;
    BegunHasAll(s, next, k);
  }

  lemma EndedHasBegun(s: Sub, next: nat, now: real, delay: real)
    ensures SnapshotEnded(s, next, now, delay).expected.Some?
  {
    hide Drained, ConsideredAll, MissingRuns;
  }

  lemma RecoveryEarly(s: Sys, t0: real, t1: real, delay: real, k: nat)
    requires Inv(s) && Early(s) && k in s.sub.pending && s.down != []
    ensures var t := Step(s, RecoveryFrame(t0, t1), delay);
            && t.snapAt == s.snapAt
            && (Early(t) ==> k in t.sub.pending)
            && (!Early(t) ==> t.snapAt.Some? && (t.snapAt.value <= k ==> Have(t.sub, k)))
  {
    hide PubInv, IsSnapshot, BufferInv, SnapshotEnded, Response;
    if |s.sub.out| < |s.snaps| {
      SnapshotValueStep(s, t0, t1, delay);
      var j := |s.sub.out|;
      assert s.down[0] == s.snaps[j];
      SnapshotMember(s.snaps, ViewOf(s.pub.history[..s.snapAt.value]), j);
    } else {
      var n := s.snapAt.value;
      assert s.down[0] == SnapshotEnd(|s.snaps|, n);
      EndedHasBegun(s.sub, n, t1, delay);
      if n <= k {
        EndedHasAll(s.sub, n, t1, delay, k);
      }
    }
  }

  lemma OtherEarly(s: Sys, e: Event, delay: real)
    requires Early(s) && !e.RecoveryFrame? && !e.DatagramFrame?
    ensures Step(s, e, delay).sub == s.sub
  {
    if e.PublishFrame? || e.FlushFrames? || e.Serve? {
      SameSubscriber(s, e, delay);
    }
  }

  lemma StepEarly(s: Sys, e: Event, delay: real, k: nat)
    requires Inv(s) && Early(s) && k in s.sub.pending
    ensures var t := Step(s, e, delay);
            && (Early(t) ==> k in t.sub.pending || Crowded(t.sub, k))
            && (!Early(t) ==> t.snapAt.Some? && (t.snapAt.value <= k ==> Have(t.sub, k)))
  {
    hide Inv, Step, Have, Crowded;
    match e
    case DatagramFrame(d, i, t0, t1) =>
      if d < |s.pub.sent| && i < |s.pub.sent[d]| {
        DatagramEarly(s, d, i, t0, t1, delay, k);
      } else {
        NothingArrives(s, e, delay);
      }
    case RecoveryFrame(t0, t1) =>
      if s.down != [] {
        RecoveryEarly(s, t0, t1, delay, k);
      } else {
        NothingArrives(s, e, delay);
      }
    case _ => OtherEarly(s, e, delay);
  }

  lemma NothingArrives(s: Sys, e: Event, delay: real)
    requires match e
             case DatagramFrame(d, i, _, _) => !(d < |s.pub.sent| && i < |s.pub.sent[d]|)
             case RecoveryFrame(_, _) => s.down == []
             case _ => false
    ensures Step(s, e, delay) == s
  {}

  lemma SnapshotStays(s: Sys, e: Event, delay: real)
    requires Inv(s) && s.sub.expected.Some?
    ensures Step(s, e, delay).snapAt == s.snapAt
  {
    hide PubInv, IsSnapshot, LiveInv, Response, Observed, OnTcp, OnTimer, Publishable, WellFormed, Published, Flushed;
  }

  // ---- Every run ----

  /** At no moment before the snapshot has ended do too many greater numbers wait. */
  ghost predicate NeverCrowded(s: Sys, es: seq<Event>, delay: real, k: nat) {
    forall j: nat :: j <= |es| ==> RoomAt(s, es, delay, k, j)
  }

  ghost predicate RoomAt(s: Sys, es: seq<Event>, delay: real, k: nat, j: nat)
    requires j <= |es|
  {
    var v := Recovery.Run(s, es[..j], delay);
    Early(v) ==> !Crowded(v.sub, k)
  }

  lemma RoomBefore(s: Sys, es: seq<Event>, delay: real, k: nat)
    requires NeverCrowded(s, es, delay, k) && es != []
    ensures NeverCrowded(s, es[..|es| - 1], delay, k)
    ensures var t := Recovery.Run(s, es, delay); Early(t) ==> !Crowded(t.sub, k)
  {
    hide Recovery.Run, Crowded;
    var front := es[..|es| - 1];
    forall j: nat | j <= |front|
      ensures RoomAt(s, front, delay, k, j)
    {
      assert front[..j] == es[..j];
      assert RoomAt(s, es, delay, k, j);
    }
    assert RoomAt(s, es, delay, k, |es|) && es[..|es|] == es;
  }

  lemma RoomNow(s: Sys, es: seq<Event>, delay: real, k: nat)
    requires NeverCrowded(s, es, delay, k) && Early(s)
    ensures !Crowded(s.sub, k)
  {
    assert RoomAt(s, es, delay, k, 0);
  }

  lemma {:induction false} EarlyStays(s: Sys, es: seq<Event>, delay: real, k: nat)
    requires Converges(s) && Early(s) && k in s.sub.pending && NeverCrowded(s, es, delay, k)
    ensures var t := Recovery.Run(s, es, delay);
            && (Early(t) ==> k in t.sub.pending)
            && (!Early(t) ==> t.snapAt.Some? && (t.snapAt.value <= k ==> Have(t.sub, k)))
    decreases |es|
  {
    hide Converges, Step, Have, NeverCrowded, Crowded;
    if es == [] {
    } else {
      var front, e := Recovery.Run(s, es[..|es| - 1], delay), es[|es| - 1];
      RoomBefore(s, es, delay, k);
      EarlyStays(s, es[..|es| - 1], delay, k);
      RunConverges(s, es[..|es| - 1], delay);
      ConvergesParts(front);
      if Early(front) {
        StepEarly(front, e, delay, k);
      } else {
        SnapshotStays(front, e, delay);
        StepAdvances(front, e, delay);
        if front.snapAt.value <= k {
          HereStays(front.sub, Step(front, e, delay).sub, k);
        }
      }
    }
  }

  /** In every run: a datagram frame that arrives before the snapshot has ended waits until then, and from then on, if
      the snapshot does not already cover it, its number is below the expected one or still waiting; unless meanwhile as
      many as two hundred thousand greater numbers waited. */
  lemma EarlyFramesAreNotMissed(size: nat, maxDatagram: nat, past: seq<Event>, d: nat, i: nat, t0: real, t1: real, es: seq<Event>, delay: real)
    requires size > 0
    requires var s := Recovery.Run(Init(size, maxDatagram), past, delay); Early(s) && d < |s.pub.sent| && i < |s.pub.sent[d]|
    ensures var s := Recovery.Run(Init(size, maxDatagram), past, delay);
            var k, t := s.pub.sent[d][i].number, Step(s, DatagramFrame(d, i, t0, t1), delay);
            var u := Recovery.Run(t, es, delay);
            NeverCrowded(t, es, delay, k) ==>
              && (Early(u) ==> k in u.sub.pending && Genuine(u.pub.history, u.sub.pending[k]) && u.sub.pending[k].number == k)
              && (!Early(u) ==> u.snapAt.Some? && (u.snapAt.value <= k ==> k < u.sub.expected.value || k in u.sub.pending))
  {
    hide Converges, Init, Step, Recovery.Run, NeverCrowded, Genuine;
    StartConverges(size, maxDatagram);
    RunConverges(Init(size, maxDatagram), past, delay);
    var s := Recovery.Run(Init(size, maxDatagram), past, delay);
    var k, t := s.pub.sent[d][i].number, Step(s, DatagramFrame(d, i, t0, t1), delay);
    DatagramEarly(s, d, i, t0, t1, delay, k);
    StepConverges(s, DatagramFrame(d, i, t0, t1), delay);
    if NeverCrowded(t, es, delay, k) {
      RoomNow(t, es, delay, k);
      EarlyStays(t, es, delay, k);
      RunConverges(t, es, delay);
      EarlyIsGenuine(Recovery.Run(t, es, delay));
    }
  }

  lemma EarlyIsGenuine(s: Sys)
    requires Converges(s)
    ensures Early(s) ==> forall k :: k in s.sub.pending ==> Genuine(s.pub.history, s.sub.pending[k]) && s.sub.pending[k].number == k
  {
    hide PubInv, IsSnapshot, LiveInv, AllComing, OutstandingAsked;
  }
}
