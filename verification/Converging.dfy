/** Gaps close: once the recovery stream is empty, what was asked for is there; and a tick asks for all that is missing. */
module Converging {
  import opened Wrappers
  import opened Bytes
  import opened Feed
  import opened Numbers
  import opened Publishing
  import opened Subscribing
  import opened Recovery
  import opened Progress
  import opened Requesting
  import opened Answering

  /** Taking this message puts number `k` behind the subscriber or into its buffer. */
  ghost predicate Brings(m: Msg, k: nat) {
    if m.msgType == MSG_ACK then m.body.Receipt? && m.body.unavailable > 0 && k < m.body.oldest else m.number == k
  }

  ghost predicate HereOrComing(s: Sys, k: nat) {
    Have(s.sub, k) || exists m :: m in s.down && Brings(m, k)
  }

  /** How far one request reaches. */
  predicate Covers(r: Run, k: nat) { r.0 <= k <= r.1 && k < r.0 + REQUEST_LIMIT }

  /** Every number of a request that was served is there or under way. */
  ghost predicate AllComing(s: Sys) {
    && s.served <= |s.sub.requests| + 1
    && forall j: nat, k: nat :: j < s.served - 1 && Covers(s.sub.requests[j], k) ==> HereOrComing(s, k)
  }

  ghost predicate OutstandingAsked(s: Sub) {
    forall r :: r in s.outstanding ==> r in s.requests
  }

  ghost predicate Converges(s: Sys) {
    && Inv(s) && OutstandingAsked(s.sub)
    && (|s.pub.history| < 0x1_0000_0000_0000_0000 ==> AllComing(s))
  }

  // ---- One step ----

  /** What an event brings to the subscriber. */
  ghost function ArrivalOf(s: Sys, e: Event): (a: Option<Arrival>)
    ensures a.Some? && a.value.OverTcp? ==> WellFormed(a.value.m)
  {
    match e
    case DatagramFrame(d, i, t0, t1) =>
      if d < |s.pub.sent| && i < |s.pub.sent[d]| then Some(OverUdp(s.pub.sent[d][i], t0, t1)) else None
    case RecoveryFrame(t0, t1) => if s.down != [] && WellFormed(s.down[0]) then Some(OverTcp(s.down[0], t0, t1)) else None
    case Timer(now) => Some(Tick(now))
    case _ => None
  }

  lemma StepIsArrival(s: Sys, e: Event, delay: real)
    ensures Step(s, e, delay).sub == if ArrivalOf(s, e).Some? then AfterArrival(s.sub, ArrivalOf(s, e).value, delay) else s.sub
  {
    hide Observed, OnTcp, OnTimer, WellFormed;
    if e.PublishFrame? || e.FlushFrames? || e.Serve? {
      SameSubscriber(s, e, delay);
    }
  }

  lemma RecordGrows(s: Sys, e: Event, delay: real)
    requires OutstandingAsked(s.sub)
    ensures var t := Step(s, e, delay); s.sub.requests <= t.sub.requests && OutstandingAsked(t.sub)
  {
    StepIsArrival(s, e, delay);
    hide Step, ArrivalOf, AfterArrival;
    if ArrivalOf(s, e).Some? {
      RequestsGrow(s.sub, ArrivalOf(s, e).value, delay);
    }
  }

  lemma HistoryOnlyGrows(s: Sys, e: Event, delay: real)
    ensures |s.pub.history| <= |Step(s, e, delay).pub.history|
  {
    hide Observed, OnTcp, OnTimer, Response, Publishable, IsSnapshot, WellFormed;
  }

  /** The answer to a request brings every number it covers. */
  lemma ResponseBrings(p: Pub, from: u64, to: u64, k: nat)
    requires PubInv(p) && from <= to < |p.history| < 0x1_0000_0000_0000_0000 && Covers((from, to), k)
    ensures exists m :: m in Response(p, from, to) && Brings(m, k)
  {
    ResponseIsComplete(p, from, to);
    assert ReceiptFor(p, from, to).body.unavailable > 0 ==>
      from + ReceiptFor(p, from, to).body.unavailable <= ReceiptFor(p, from, to).body.oldest by { ResponseCounts(p, from, to); }
    var ms, last := Resent(p, from, to), ReceiptFor(p, from, to);
    assert last.msgType == MSG_ACK;
    hide Resent, ReceiptFor, PubInv;
    assert last in ms + [last];
    if k < from + last.body.unavailable {
      assert Brings(last, k);
    } else {
      var m := ms[k - (from + last.body.unavailable)];
      IsData(p, k);
      assert m in ms + [last] && Brings(m, k);
    }
  }

  lemma TakenIsHere(s: Sub, m: Msg, k: nat)
    requires Took(s, m) && Brings(m, k)
    ensures Have(s, k)
  {}

  lemma ComingStays(s: Sys, e: Event, delay: real, k: nat)
    requires Inv(s) && s.sub.expected.Some? && HereOrComing(s, k)
    ensures HereOrComing(Step(s, e, delay), k)
  {
    hide Inv, Step, Brings, Have, Took;
    var t := Step(s, e, delay);
    StepAdvances(s, e, delay);
    if Have(s.sub, k) {
      HereStays(s.sub, t.sub, k);
    } else {
      var m :| m in s.down && Brings(m, k);
      if e.RecoveryFrame? {
        FrameTaken(s, e.t0, e.t1, delay);
        if m == s.down[0] {
          TakenIsHere(t.sub, m, k);
        } else {
          assert m in s.down[1..];
        }
      } else {
        Subscribed(s);
        StreamGrows(s, e, delay);
        assert m in t.down;
      }
    }
  }

  lemma HereStays(s: Sub, t: Sub, k: nat)
    requires Advances(s, t) && Have(s, k)
    ensures Have(t, k)
  {}

  lemma StillWaiting(s: Sys, e: Event, delay: real)
    requires Inv(s) && s.sub.expected == None
    ensures Step(s, e, delay).served <= 1
  {
    hide PubInv, IsSnapshot, BufferInv, Response, Observed, OnTcp, OnTimer, Publishable, WellFormed;
  }

  lemma ServedOrNot(s: Sys, e: Event, delay: real)
    requires Inv(s) && s.sub.expected.Some?
    ensures var t := Step(s, e, delay);
            t.served == s.served || (e.Serve? && 1 <= s.served <= |s.sub.requests| && t.served == s.served + 1)
  {
    hide PubInv, IsSnapshot, BufferInv, Response, Observed, OnTcp, OnTimer, Publishable, WellFormed;
  }

  lemma StepConverges(s: Sys, e: Event, delay: real)
    requires Converges(s)
    ensures Converges(Step(s, e, delay))
  {
    hide Inv, Step, HereOrComing, Covers;
    var t := Step(s, e, delay);
    StepKeepsInv(s, e, delay);
    RecordGrows(s, e, delay);
    HistoryOnlyGrows(s, e, delay);
    if |t.pub.history| < 0x1_0000_0000_0000_0000 {
      if s.sub.expected == None {
        StillWaiting(s, e, delay);
      } else {
        ServedOrNot(s, e, delay);
        forall j: nat, k: nat | j < t.served - 1 && Covers(t.sub.requests[j], k)
          ensures HereOrComing(t, k)
        {
          assert t.sub.requests[j] == s.sub.requests[j];
          if j < s.served - 1 {
            ComingStays(s, e, delay, k);
          } else {
            AnswerIsComing(s, e.snapshot, delay, k);
          }
        }
      }
    }
  }

  lemma AnswerIsComing(s: Sys, snapshot: seq<Msg>, delay: real, k: nat)
    requires Inv(s) && s.sub.expected.Some? && 1 <= s.served <= |s.sub.requests| && |s.pub.history| < 0x1_0000_0000_0000_0000
    requires Covers(s.sub.requests[s.served - 1], k)
    ensures HereOrComing(Step(s, Serve(snapshot), delay), k)
  {
    RequestServed(s, snapshot, delay);
    InvPub(s);
    hide Inv, PubInv, Step, Response, Brings, Covers;
    var (from, to) := s.sub.requests[s.served - 1];
    ResponseBrings(s.pub, from, to, k);
    var m :| m in Response(s.pub, from, to) && Brings(m, k);
    assert m in s.down + Response(s.pub, from, to);
  }

  // ---- Runs ----

  lemma {:induction false} RunConverges(s: Sys, es: seq<Event>, delay: real)
    requires Converges(s)
    ensures var t := Recovery.Run(s, es, delay);
            Converges(t) && s.sub.requests <= t.sub.requests && |s.pub.history| <= |t.pub.history|
            && (s.sub.expected.Some? ==> t.sub.expected.Some?)
    decreases |es|
  {
    hide Converges, Step;
    if es == [] {
    } else {
      var front, e := Recovery.Run(s, es[..|es| - 1], delay), es[|es| - 1];
      RunConverges(s, es[..|es| - 1], delay);
      StepConverges(front, e, delay);
      ConvergesParts(front);
      RecordGrows(front, e, delay);
      HistoryOnlyGrows(front, e, delay);
      if front.sub.expected.Some? {
        StepAdvances(front, e, delay);
      }
    }
  }

  lemma ConvergesParts(s: Sys)
    requires Converges(s)
    ensures Inv(s) && OutstandingAsked(s.sub)
  {}

  lemma StartConverges(size: nat, maxDatagram: nat)
    requires size > 0
    ensures Converges(Init(size, maxDatagram))
  {
    InitInv(size, maxDatagram);
    hide Inv;
  }

  /** In every run: whenever the recovery stream has been taken to its end, every number of every request that was
      served (ten thousand of each) is behind the subscriber or in its buffer. */
  lemma ServedIsThere(size: nat, maxDatagram: nat, es: seq<Event>, delay: real)
    requires size > 0
    ensures var s := Recovery.Run(Init(size, maxDatagram), es, delay);
            s.down == [] && |s.pub.history| < 0x1_0000_0000_0000_0000 ==>
              && s.served <= |s.sub.requests| + 1
              && forall j: nat, k: nat :: j < s.served - 1 && Covers(s.sub.requests[j], k) ==> Have(s.sub, k)
  {
    hide Converges, Init, Recovery.Run, Covers, Have;
    StartConverges(size, maxDatagram);
    RunConverges(Init(size, maxDatagram), es, delay);
    var s := Recovery.Run(Init(size, maxDatagram), es, delay);
    if s.down == [] && |s.pub.history| < 0x1_0000_0000_0000_0000 {
      NothingLeftToCome(s);
    }
  }

  lemma NothingLeftToCome(s: Sys)
    requires Converges(s) && s.down == [] && |s.pub.history| < 0x1_0000_0000_0000_0000
    ensures s.served <= |s.sub.requests| + 1
    ensures forall j: nat, k: nat :: j < s.served - 1 && Covers(s.sub.requests[j], k) ==> Have(s.sub, k)
  {
    hide Inv, OutstandingAsked, Covers, Have, Brings;
    assert forall k: nat :: HereOrComing(s, k) ==> Have(s.sub, k);
  }

  /** The run of missing numbers below the greatest waiting one that starts at `r.0`. */
  ghost predicate MissingBelow(s: Sub, r: Run) {
    s.expected.Some? && s.pending != map[] && MaximalGap(s.pending.Keys, s.expected.value, Greatest(s.pending.Keys), r)
  }

  /** No missing run has to wait for the delay. */
  ghost predicate AllRipe(s: Sub, now: real, delay: real) {
    forall r: Run :: MissingBelow(s, r) ==> r in s.outstanding || Due(s, r, now, delay)
  }

  /** After a tick every missing run below the greatest waiting number has been asked for. */
  lemma TickAsksForAll(s: Sub, now: real, delay: real, r: Run)
    requires AllRipe(s, now, delay) && OutstandingAsked(s) && MissingBelow(s, r)
    ensures r in OnTimer(s, now, delay).requests
  {
    hide MaximalGap, Due, Asked, Requested, Considered, ConsideredAll;
    AskedExactlyWhenDue(s, Tick(now), delay, r);
    RequestsGrow(s, Tick(now), delay);
    if Due(s, r, now, delay) {
      AskedIsOnRecord(s, OnTimer(s, now, delay), r);
    }
  }

  /** A number below the greatest waiting one is there or in one of the missing runs. */
  lemma ThereOrMissing(s: Sub, k: nat)
    requires s.expected.Some? && s.pending != map[] && k < Greatest(s.pending.Keys)
    ensures Have(s, k) || exists r: Run :: MissingBelow(s, r) && r.0 <= k <= r.1
  {
    var have, lo, upto := s.pending.Keys, s.expected.value, Greatest(s.pending.Keys);
    if lo <= k && k !in have {
      GapAround(have, lo, upto, k);
    }
  }

  /** The start of the run of missing numbers that holds `k`. */
  function RunStart(have: set<nat>, lo: nat, k: nat): (a: nat)
    requires lo <= k && k !in have
    ensures lo <= a <= k && (forall i :: a <= i <= k ==> i !in have) && (a == lo || a - 1 in have)
  {
    if lo < k && k - 1 !in have then RunStart(have, lo, k - 1) else k
  }

  lemma GapAround(have: set<nat>, lo: nat, upto: nat, k: nat)
    requires lo <= k < upto && k !in have
    ensures exists r: Run :: MaximalGap(have, lo, upto, r) && r.0 <= k <= r.1
  {
    var r: Run := (RunStart(have, lo, k), RunEnd(have, k, upto));
    hide RunStart, RunEnd;
    assert MaximalGap(have, lo, upto, r);
  }

  /** Convergence: when a tick finds frames waiting and no missing run has to wait for the delay, then, whatever else
      happens, as soon as all that was asked for by then has been served and the recovery stream has been taken to its
      end, every missing run is there up to ten thousand numbers of it; and if none was longer, the subscriber is past
      every frame that was waiting. */
  lemma GapsClose(size: nat, maxDatagram: nat, past: seq<Event>, now: real, es: seq<Event>, delay: real)
    requires size > 0
    ensures var s := Recovery.Run(Init(size, maxDatagram), past, delay);
            var t := Step(s, Timer(now), delay);
            var u := Recovery.Run(t, es, delay);
            s.sub.expected.Some? && s.sub.pending != map[] && AllRipe(s.sub, now, delay) &&
            u.served > |t.sub.requests| && u.down == [] && |u.pub.history| < 0x1_0000_0000_0000_0000 ==>
              && (forall r: Run, k: nat :: MissingBelow(s.sub, r) && Covers(r, k) ==> Have(u.sub, k))
              && ((forall r: Run :: MissingBelow(s.sub, r) ==> r.1 < r.0 + REQUEST_LIMIT) ==>
                    u.sub.expected.Some? && u.sub.expected.value > Greatest(s.sub.pending.Keys))
  {
    hide Converges, Init, Recovery.Run, Step, Covers, MissingBelow, AllRipe, Have;
    StartConverges(size, maxDatagram);
    RunConverges(Init(size, maxDatagram), past, delay);
    var s := Recovery.Run(Init(size, maxDatagram), past, delay);
    var t := Step(s, Timer(now), delay);
    var u := Recovery.Run(t, es, delay);
    StepConverges(s, Timer(now), delay);
    RunConverges(t, es, delay);
    if s.sub.expected.Some? && s.sub.pending != map[] && AllRipe(s.sub, now, delay) &&
       u.served > |t.sub.requests| && u.down == [] && |u.pub.history| < 0x1_0000_0000_0000_0000 {
      forall r: Run, k: nat | MissingBelow(s.sub, r) && Covers(r, k)
        ensures Have(u.sub, k)
      {
        MissingIsServed(s, t, u, now, delay, r, k);
      }
      if forall r: Run :: MissingBelow(s.sub, r) ==> r.1 < r.0 + REQUEST_LIMIT {
        ShortAreClosed(s.sub, u.sub);
        EverythingHere(s, es, now, delay);
      }
    }
  }

  lemma MissingIsServed(s: Sys, t: Sys, u: Sys, now: real, delay: real, r: Run, k: nat)
    requires Converges(s) && t == Step(s, Timer(now), delay) && Converges(u) && t.sub.requests <= u.sub.requests
    requires AllRipe(s.sub, now, delay) && MissingBelow(s.sub, r) && Covers(r, k)
    requires u.served > |t.sub.requests| && u.down == [] && |u.pub.history| < 0x1_0000_0000_0000_0000
    ensures Have(u.sub, k)
  {
    hide Converges, Step, Covers, MissingBelow, AllRipe, Have, OnTimer;
    assert t.sub == OnTimer(s.sub, now, delay) by { TickOfTheSubscriber(s, now, delay); }
    ConvergesParts(s);
    NothingLeftToCome(u);
    TickAsksForAll(s.sub, now, delay, r);
    var j :| 0 <= j < |t.sub.requests| && t.sub.requests[j] == r;
    assert u.sub.requests[j] == r;
  }

  lemma TickOfTheSubscriber(s: Sys, now: real, delay: real)
    ensures Step(s, Timer(now), delay).sub == OnTimer(s.sub, now, delay)
  {
    hide OnTimer;
  }

  lemma {:induction false} RunAdvances(s: Sys, es: seq<Event>, delay: real, k: nat)
    requires Converges(s) && s.sub.expected.Some? && Have(s.sub, k)
    ensures var u := Recovery.Run(s, es, delay); Ready(u.sub) && Have(u.sub, k)
    decreases |es|
  {
    hide Converges, Step, Have;
    if es == [] {
      ConvergesParts(s);
      LiveIsReady(s);
    } else {
      var front, e := Recovery.Run(s, es[..|es| - 1], delay), es[|es| - 1];
      RunAdvances(s, es[..|es| - 1], delay, k);
      RunConverges(s, es[..|es| - 1], delay);
      ConvergesParts(front);
      StepAdvances(front, e, delay);
      HereStays(front.sub, Step(front, e, delay).sub, k);
    }
  }

  /** What is there before a tick is there at the end. */
  lemma StaysToTheEnd(s: Sys, es: seq<Event>, now: real, delay: real, k: nat)
    requires Converges(s) && s.sub.expected.Some? && Have(s.sub, k)
    ensures var u := Recovery.Run(Step(s, Timer(now), delay), es, delay); Ready(u.sub) && Have(u.sub, k)
  {
    hide Converges, Step, Have, Recovery.Run;
    ConvergesParts(s);
    StepConverges(s, Timer(now), delay);
    StepAdvances(s, Timer(now), delay);
    HereStays(s.sub, Step(s, Timer(now), delay).sub, k);
    RunAdvances(Step(s, Timer(now), delay), es, delay, k);
  }

  /** Every missing run is short and all there at the end. */
  ghost predicate AllClosed(s: Sub, u: Sub) {
    forall r: Run, k: nat :: MissingBelow(s, r) && r.0 <= k <= r.1 ==> Have(u, k)
  }

  lemma ShortAreClosed(s: Sub, u: Sub)
    requires forall r: Run, k: nat :: MissingBelow(s, r) && Covers(r, k) ==> Have(u, k)
    requires forall r: Run :: MissingBelow(s, r) ==> r.1 < r.0 + REQUEST_LIMIT
    ensures AllClosed(s, u)
  {
    hide MissingBelow, Have;
    assert forall r: Run, k: nat :: MissingBelow(s, r) && r.0 <= k <= r.1 ==> Covers(r, k);
  }

  lemma ThereAtTheEnd(s: Sys, es: seq<Event>, now: real, delay: real, k: nat)
    requires Converges(s) && s.sub.expected.Some? && s.sub.pending != map[] && k <= Greatest(s.sub.pending.Keys)
    requires AllClosed(s.sub, Recovery.Run(Step(s, Timer(now), delay), es, delay).sub)
    ensures var u := Recovery.Run(Step(s, Timer(now), delay), es, delay); Ready(u.sub) && Have(u.sub, k)
  {
    hide Converges, Step, Have, MissingBelow, Recovery.Run, Ready;
    WaitingIsHere(s.sub, Greatest(s.sub.pending.Keys));
    StaysToTheEnd(s, es, now, delay, Greatest(s.sub.pending.Keys));
    if k < Greatest(s.sub.pending.Keys) {
      ThereOrMissing(s.sub, k);
      if Have(s.sub, k) {
        StaysToTheEnd(s, es, now, delay, k);
      }
    }
  }

  lemma EverythingHere(s: Sys, es: seq<Event>, now: real, delay: real)
    requires Converges(s) && s.sub.expected.Some? && s.sub.pending != map[]
    requires AllClosed(s.sub, Recovery.Run(Step(s, Timer(now), delay), es, delay).sub)
    ensures var u := Recovery.Run(Step(s, Timer(now), delay), es, delay);
            u.sub.expected.Some? && u.sub.expected.value > Greatest(s.sub.pending.Keys)
  {
    hide Converges, Step, Have, AllClosed, Recovery.Run, Ready;
    var g, u := Greatest(s.sub.pending.Keys), Recovery.Run(Step(s, Timer(now), delay), es, delay);
    forall k: nat | k <= g
      ensures Ready(u.sub) && Have(u.sub, k)
    {
      ThereAtTheEnd(s, es, now, delay, k);
    }
    assert Have(u.sub, g);
    BeyondAll(u.sub, g);
  }

  lemma WaitingIsHere(s: Sub, k: nat)
    requires s.expected.Some? && k in s.pending
    ensures Have(s, k)
  {}

  lemma BeyondAll(s: Sub, g: nat)
    requires Ready(s) && forall k: nat :: k <= g ==> Have(s, k)
    ensures s.expected.Some? && s.expected.value > g
  {
    assert !Have(s, s.expected.value);
  }
}
