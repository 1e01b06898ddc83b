/** A request in a run of the whole system: once its answer has come through, every number it asked for is there. */
module Answering {
  import opened Bytes
  import opened Feed
  import opened Numbers
  import opened Publishing
  import opened Subscribing
  import opened Recovery
  import opened Progress

  /** What a message of the recovery stream brings has reached the subscriber. */
  ghost predicate Took(s: Sub, m: Msg) {
    && Ready(s)
    && (m.msgType != MSG_ACK ==> Have(s, m.number))
    && (m.msgType == MSG_ACK && m.body.Receipt? && m.body.unavailable > 0 ==> s.expected.value >= m.body.oldest)
  }

  function RecoveryFrames(es: seq<Event>): (n: nat)
    ensures n <= |es|
  {
    if es == [] then 0 else RecoveryFrames(es[..|es| - 1]) + if es[|es| - 1].RecoveryFrame? then 1 else 0
  }

  lemma TookStays(s: Sub, t: Sub, m: Msg)
    requires Took(s, m) && Advances(s, t)
    ensures Took(t, m)
  {}

  lemma LiveIsReady(s: Sys)
    requires Inv(s) && s.sub.expected.Some?
    ensures Ready(s.sub)
    ensures s.down != [] ==> !IsSnapshotFlagged(s.down[0]) && WellFormed(s.down[0])
  {
    hide PubInv, IsSnapshot, LiveInv;
    if s.down != [] {
      assert UnderWay(s.pub.history, Gone(s.pub), s.down[0]);
    }
  }

  lemma NothingAdvances(s: Sub)
    requires Ready(s)
    ensures Advances(s, s)
  {}

  lemma SameSubscriber(s: Sys, e: Event, delay: real)
    requires e.PublishFrame? || e.FlushFrames? || e.Serve?
    ensures Step(s, e, delay).sub == s.sub
  {
    hide Published, Flushed, Publishable, Response, IsSnapshot;
  }

  /** Each step of the system moves the subscriber forward only. */
  lemma StepAdvances(s: Sys, e: Event, delay: real)
    requires Inv(s) && s.sub.expected.Some?
    ensures var t := Step(s, e, delay);
            Inv(t) && t.sub.expected.Some? && Ready(s.sub) && Advances(s.sub, t.sub)
  {
    StepKeepsInv(s, e, delay);
    LiveIsReady(s);
    NothingAdvances(s.sub);
    hide Inv, Advances, Observed, OnTimer, OnTcp, Ready, ServeSubscription, ServeRequest, Published, Took;
    match e
    case DatagramFrame(d, i, t0, t1) =>
      if d < |s.pub.sent| && i < |s.pub.sent[d]| {
        ObservedAdvances(s.sub, s.pub.sent[d][i], false, t0, t1, delay);
      }
    case Timer(now) => TimerAdvances(s.sub, now, delay);
    case RecoveryFrame(t0, t1) =>
      if s.down != [] {
        FrameTaken(s, t0, t1, delay);
      }
    case _ => SameSubscriber(s, e, delay);
  }

  /** The next message of the recovery stream is taken. */
  lemma FrameTaken(s: Sys, t0: real, t1: real, delay: real)
    requires Inv(s) && s.sub.expected.Some? && s.down != []
    ensures var t := Step(s, RecoveryFrame(t0, t1), delay);
            t.down == s.down[1..] && Advances(s.sub, t.sub) && Took(t.sub, s.down[0])
  {
    LiveIsReady(s);
    NothingAdvances(s.sub);
    hide Inv, Observed, Acknowledged, Have;
    var m := s.down[0];
    if m.msgType == MSG_ACK {
      if m.body.Receipt? {
        AcknowledgedAdvances(s.sub, m.body);
      }
    } else {
      ObservedAdvances(s.sub, m, true, t0, t1, delay);
    }
  }

  /** Other steps can only make the recovery stream longer. */
  lemma StreamGrows(s: Sys, e: Event, delay: real)
    requires !e.RecoveryFrame? && s.served > 0
    ensures s.down <= Step(s, e, delay).down
  {
    hide Observed, OnTimer, Response, Published, Flushed;
  }

  lemma Subscribed(s: Sys)
    requires Inv(s) && s.sub.expected.Some?
    ensures s.served > 0
  {}

  /** After `n` recovery frames the first `n` messages of what was under way have been taken, and the rest is still
      under way. */
  lemma {:induction false} StreamIsTaken(s: Sys, es: seq<Event>, delay: real)
    requires Inv(s) && s.sub.expected.Some?
    ensures var t, n := Recovery.Run(s, es, delay), Min(RecoveryFrames(es), |s.down|);
            && Inv(t) && t.sub.expected.Some? && s.sub.expected.value <= t.sub.expected.value
            && s.down[n..] <= t.down && forall j :: 0 <= j < n ==> Took(t.sub, s.down[j])
    decreases |es|
  {
    hide Inv, Step, Took;
    if es == [] {
    } else {
      var front, e := Recovery.Run(s, es[..|es| - 1], delay), es[|es| - 1];
      var t, k := Step(front, e, delay), Min(RecoveryFrames(es[..|es| - 1]), |s.down|);
      StreamIsTaken(s, es[..|es| - 1], delay);
      StepAdvances(front, e, delay);
      forall j | 0 <= j < k
        ensures Took(t.sub, s.down[j])
      {
        TookStays(front.sub, t.sub, s.down[j]);
      }
      if e.RecoveryFrame? {
        if front.down != [] {
          FrameTaken(front, e.t0, e.t1, delay);
          assert k < |s.down| ==> s.down[k..][0] == front.down[0];
        }
      } else {
        Subscribed(front);
        StreamGrows(front, e, delay);
      }
    }
  }

  /** Serving the next request appends its answer to the stream. */
  lemma RequestServed(s: Sys, snapshot: seq<Msg>, delay: real)
    requires Inv(s) && s.sub.expected.Some? && 1 <= s.served <= |s.sub.requests| && |s.pub.history| < 0x1_0000_0000_0000_0000
    ensures var r := s.sub.requests[s.served - 1];
            && r.0 <= r.1 < |s.pub.history|
            && Step(s, Serve(snapshot), delay) == s.(served := s.served + 1, down := s.down + Response(s.pub, r.0, r.1))
  {
    hide PubInv, IsSnapshot, LogInv, Response, UnderWay;
    assert s.sub.requests[s.served - 1] in s.sub.requests;
  }

  /** A whole answer taken: every number asked for, up to the limit, is passed or waits. */
  lemma AnswerTaken(p: Pub, from: u64, to: u64, t: Sub)
    requires PubInv(p) && from <= to && from < |p.history| < 0x1_0000_0000_0000_0000
    requires Ready(t) && forall j :: 0 <= j < |Response(p, from, to)| ==> Took(t, Response(p, from, to)[j])
    ensures forall k :: from <= k <= Min(Min(to, |p.history| - 1), from + REQUEST_LIMIT - 1) ==> Have(t, k)
  {
    var ms, last, answer := Resent(p, from, to), ReceiptFor(p, from, to), Response(p, from, to);
    assert answer == ms + [last] && last.msgType == MSG_ACK;
    ResponseIsComplete(p, from, to);
    assert last.body.unavailable > 0 ==> from + last.body.unavailable <= last.body.oldest by { ResponseCounts(p, from, to); }
    hide Resent, ReceiptFor, Response, PubInv;
    assert Took(t, answer[|ms|]);
    forall k | from + last.body.unavailable <= k <= last.body.to
      ensures Have(t, k)
    {
      var j := k - (from + last.body.unavailable);
      assert Took(t, answer[j]) && answer[j] == ms[j];
      IsData(p, k);
    }
  }

  lemma IsData(p: Pub, k: nat)
    requires PubInv(p) && k < |p.history|
    ensures p.history[k].msgType != MSG_ACK && p.history[k].number == k
  {
    assert Publishable(p.history[k]);
  }

  /** From any state that can be reached: once the next request is served and its answer has come through, whatever
      happens in between, every number it asked for (ten thousand at most) is behind the subscriber or in its buffer;
      so a subscriber that has come to the start of the run is past its end. */
  lemma AskedIsThere(size: nat, maxDatagram: nat, past: seq<Event>, snapshot: seq<Msg>, es: seq<Event>, delay: real)
    requires size > 0
    ensures var s := Recovery.Run(Init(size, maxDatagram), past, delay);
            s.sub.expected.Some? && 1 <= s.served <= |s.sub.requests| && |s.pub.history| < 0x1_0000_0000_0000_0000 ==>
              var (from, to) := s.sub.requests[s.served - 1];
              var t := Recovery.Run(Step(s, Serve(snapshot), delay), es, delay);
              && from <= to < |s.pub.history|
              && t.sub.expected.Some? && s.sub.expected.value <= t.sub.expected.value
              && (RecoveryFrames(es) >= |s.down| + |Response(s.pub, from, to)| ==>
                    var last := Min(to, from + REQUEST_LIMIT - 1);
                    && (forall k :: from <= k <= last ==> Have(t.sub, k))
                    && (t.sub.expected.value >= from ==> t.sub.expected.value > last))
  {
    hide Inv, Init, Step, Recovery.Run, Response, RecoveryFrames, Have, Took;
    RunKeepsInv(size, maxDatagram, past, delay);
    var s := Recovery.Run(Init(size, maxDatagram), past, delay);
    if s.sub.expected.Some? && 1 <= s.served <= |s.sub.requests| && |s.pub.history| < 0x1_0000_0000_0000_0000 {
      AnswerComesThrough(s, snapshot, es, delay);
    }
  }

  lemma TailTaken(t: Sub, before: seq<Msg>, answer: seq<Msg>)
    requires forall j :: 0 <= j < |before + answer| ==> Took(t, (before + answer)[j])
    ensures forall j :: 0 <= j < |answer| ==> Took(t, answer[j])
  {
    hide Took;
    assert forall j :: 0 <= j < |answer| ==> answer[j] == (before + answer)[|before| + j];
  }

  lemma PastOrWaiting(s: Sub)
    requires Ready(s)
    ensures !Have(s, s.expected.value)
  {}

  lemma AnswerIsThrough(s: Sys, before: seq<Msg>, p: Pub, from: u64, to: u64, es: seq<Event>, delay: real)
    requires Inv(s) && s.sub.expected.Some? && s.down == before + Response(p, from, to) && RecoveryFrames(es) >= |s.down|
    requires PubInv(p) && from <= to < |p.history| < 0x1_0000_0000_0000_0000
    ensures var t, last := Recovery.Run(s, es, delay), Min(to, from + REQUEST_LIMIT - 1);
            && t.sub.expected.Some?
            && (forall k :: from <= k <= last ==> Have(t.sub, k))
            && (t.sub.expected.value >= from ==> t.sub.expected.value > last)
  {
    hide Inv, Recovery.Run, Response, RecoveryFrames, Took, PubInv, Have;
    var t := Recovery.Run(s, es, delay);
    StreamIsTaken(s, es, delay);
    LiveIsReady(t);
    TailTaken(t.sub, before, Response(p, from, to));
    AnswerTaken(p, from, to, t.sub);
    PastOrWaiting(t.sub);
  }

  lemma AnswerComesThrough(s: Sys, snapshot: seq<Msg>, es: seq<Event>, delay: real)
    requires Inv(s) && s.sub.expected.Some? && 1 <= s.served <= |s.sub.requests| && |s.pub.history| < 0x1_0000_0000_0000_0000
    ensures var (from, to) := s.sub.requests[s.served - 1];
            var t := Recovery.Run(Step(s, Serve(snapshot), delay), es, delay);
            && from <= to < |s.pub.history|
            && t.sub.expected.Some? && s.sub.expected.value <= t.sub.expected.value
            && (RecoveryFrames(es) >= |s.down| + |Response(s.pub, from, to)| ==>
                  var last := Min(to, from + REQUEST_LIMIT - 1);
                  && (forall k :: from <= k <= last ==> Have(t.sub, k))
                  && (t.sub.expected.value >= from ==> t.sub.expected.value > last))
  {
    StepKeepsInv(s, Serve(snapshot), delay);
    RequestServed(s, snapshot, delay);
    InvPub(s);
    var (from, to) := s.sub.requests[s.served - 1];
    var served := Step(s, Serve(snapshot), delay);
    hide Inv, Step, Recovery.Run, Response, RecoveryFrames, Took, PubInv, Have;
    StreamIsTaken(served, es, delay);
    if RecoveryFrames(es) >= |served.down| {
      AnswerIsThrough(served, s.down, s.pub, from, to, es, delay);
    }
  }
}
