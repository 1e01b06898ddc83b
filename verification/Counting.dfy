/** What the subscriber's counters say: every data frame that arrives is handed over, waits or is a duplicate. */
module Counting {
  import opened Wrappers
  import opened Feed
  import opened Numbers
  import opened Subscribing
  import opened Progress
  import opened Requesting

  /** Frames handed over, waiting, and arrived again. */
  function Known(s: Sub): nat { s.stats.delivered + |s.pending| + s.stats.duplicates }

  /** The counters of what was handed on and asked for. */
  ghost predicate CountersTrue(s: Sub) {
    |s.out| == s.stats.delivered + s.stats.snapshotFrames && |s.requests| == s.stats.retransRequests
  }

  /** From `s` to `t`, `n` more frames are known. */
  ghost predicate Counts(s: Sub, t: Sub, n: nat) {
    Known(t) == Known(s) + n && t.stats.snapshotFrames == s.stats.snapshotFrames && (CountersTrue(s) ==> CountersTrue(t))
  }

  lemma {:induction false} DrainedCounts(s: Sub)
    requires s.expected.Some?
    ensures Counts(s, Drained(s), 0)
    decreases s.pending.Keys
  {
    hide Counts, Known, CountersTrue;
    var e := s.expected.value;
    if e !in s.pending {
      NothingCounts(s);
    } else {
      var t := Delivered(s.(gapSeen := s.gapSeen - {e}, pending := s.pending - {e}, expected := Some(e + 1)), s.pending[e]);
      OneHandedOver(s, e, t);
      DrainedCounts(t);
      CountsOn(s, t, Drained(t), 0, 0);
    }
  }

  lemma CountsOn(s: Sub, t: Sub, u: Sub, m: nat, n: nat)
    requires Counts(s, t, m) && Counts(t, u, n)
    ensures Counts(s, u, m + n)
  {
    hide CountersTrue, Known;
  }

  lemma OneHandedOver(s: Sub, e: nat, t: Sub)
    requires e in s.pending && t.pending == s.pending - {e} && t.out == s.out + [s.pending[e]] && t.requests == s.requests
    requires t.stats == s.stats.(delivered := s.stats.delivered + 1)
    ensures Counts(s, t, 0)
  {
    OneFewer(s.pending, e);
  }

  lemma OneFewer(m: map<nat, Msg>, k: nat)
    requires k in m
    ensures |m - {k}| == |m| - 1
  {
    assert m == (m - {k})[k := m[k]];
  }

  lemma {:induction false} AskingCounts(s: Sub, rs: seq<Run>, now: real, delay: real)
    ensures Counts(s, ConsideredAll(s, rs, now, delay), 0)
    ensures ConsideredAll(s, rs, now, delay).stats.reordered == s.stats.reordered
    decreases |rs|
  {
    if rs == [] {
    } else {
      var c := Considered(s, rs[0], now, delay);
      assert Counts(s, c, 0) && c.stats.reordered == s.stats.reordered;
      hide Considered;
      AskingCounts(c, rs[1..], now, delay);
    }
  }

  /** Once the snapshot has ended, every data frame is counted once: handed over, waiting, or a duplicate. */
  lemma FrameIsCounted(s: Sub, m: Msg, via: bool, t0: real, t1: real, delay: real)
    requires Ready(s)
    ensures Counts(s, Observed(s, m, via, t0, t1, delay), 1)
  {
    hide Drained, MissingRuns, ConsideredAll;
    if m.number == s.expected.value {
      DrainedCounts(Delivered(s, m).(expected := Some(m.number + 1)));
    } else if m.number > s.expected.value {
      var p := Parked(s, m, via, t0);
      AskingCounts(p, MissingRuns(p.pending.Keys, p.expected.value, m.number), t1, delay);
    }
  }

  /** A frame that is ahead, was not waiting and came by datagram is a reordered one; no other frame is. */
  lemma ReorderedAre(s: Sub, m: Msg, via: bool, t0: real, t1: real, delay: real)
    requires Ready(s)
    ensures Observed(s, m, via, t0, t1, delay).stats.reordered ==
            s.stats.reordered + if m.number > s.expected.value && m.number !in s.pending && !via then 1 else 0
  {
    hide Drained, MissingRuns, ConsideredAll;
    if m.number == s.expected.value {
      DrainTakesTheRun(Delivered(s, m).(expected := Some(m.number + 1)));
    } else if m.number > s.expected.value {
      var p := Parked(s, m, via, t0);
      AskingCounts(p, MissingRuns(p.pending.Keys, p.expected.value, m.number), t1, delay);
    }
  }

  lemma ReceiptCounts(s: Sub, r: Body)
    requires r.Receipt?
    ensures Counts(s, Acknowledged(s, r), 0)
    ensures Acknowledged(s, r).stats.retransFrames == s.stats.retransFrames + r.sent
  {
    hide Drained, Counts, Known, CountersTrue;
    var t := s.(outstanding := s.outstanding - {(r.from, r.to)},
                stats := s.stats.(retransFrames := s.stats.retransFrames + r.sent));
    SameCounts(s, t);
    if r.unavailable > 0 && s.expected.Some? && s.expected.value < r.oldest {
      var u := t.(expected := Some(r.oldest),
                  gapSeen := map g | g in t.gapSeen && g >= r.oldest :: t.gapSeen[g],
                  stats := t.stats.(unrecoverable := t.stats.unrecoverable + (r.oldest - t.expected.value)));
      SameCounts(s, u);
      assert Drained(u).stats.retransFrames == u.stats.retransFrames by { DrainTakesTheRun(u); }
      DrainedCounts(u);
      CountsOn(s, u, Drained(u), 0, 0);
    }
  }

  lemma SameCounts(s: Sub, t: Sub)
    requires t.pending == s.pending && t.out == s.out && t.requests == s.requests
    requires t.stats.delivered == s.stats.delivered && t.stats.duplicates == s.stats.duplicates
    requires t.stats.snapshotFrames == s.stats.snapshotFrames && t.stats.retransRequests == s.stats.retransRequests
    ensures Counts(s, t, 0)
  {}

  /** At the end of the snapshot, the frames it covers that still waited are counted as discarded. */
  lemma StaleAreDiscarded(s: Sub, next: nat, now: real, delay: real)
    ensures var t := SnapshotEnded(s, next, now, delay);
            && (forall k :: k in t.pending ==> next <= k && k in s.pending)
            && t.stats.discarded == s.stats.discarded + |Stale(s, next)|
            && t.stats.delivered + |t.pending| + (t.stats.discarded - s.stats.discarded) == s.stats.delivered + |s.pending|
  {
    hide Begun, ConsideredAll, MissingRuns;
    BegunDiscards(s, next);
    var b := Begun(s, next);
    assert b.expected.Some? by { BegunAsksNothing(s, next); }
    if b.pending != map[] {
      AskingKeepsDiscarded(b, MissingRuns(b.pending.Keys, b.expected.value, Least(b.pending.Keys)), now, delay);
    }
  }

  lemma BegunDiscards(s: Sub, next: nat)
    ensures var t := Begun(s, next);
            && (forall k :: k in t.pending ==> next <= k && k in s.pending)
            && t.stats.discarded == s.stats.discarded + |Stale(s, next)|
            && t.stats.delivered + |t.pending| + (t.stats.discarded - s.stats.discarded) == s.stats.delivered + |s.pending|
  {
    hide Begun, Stale, Drained;
    var c := StartOf(s, next);
    WithoutStale(s, next);
    hide StartOf;
    RestDelivers(c);
  }

  /** The frames that wait although the snapshot covers them. */
  function Stale(s: Sub, next: nat): set<nat> { set k | k in s.pending && k < next }

  function StartOf(s: Sub, next: nat): Sub {
    s.(expected := Some(next), pending := s.pending - Stale(s, next),
       stats := s.stats.(discarded := s.stats.discarded + |Stale(s, next)|))
  }

  lemma WithoutStale(s: Sub, next: nat)
    ensures var c := StartOf(s, next);
            && Begun(s, next) == Drained(c) && c.expected.Some?
            && (forall k :: k in c.pending ==> next <= k && k in s.pending)
            && c.stats.discarded == s.stats.discarded + |Stale(s, next)| && c.stats.delivered == s.stats.delivered
            && |c.pending| + |Stale(s, next)| == |s.pending|
  {
    hide Drained;
    Remaining(s.pending, Stale(s, next));
  }

  lemma RestDelivers(c: Sub)
    requires c.expected.Some?
    ensures var t := Drained(c);
            && (forall k :: k in t.pending ==> k in c.pending)
            && t.stats.discarded == c.stats.discarded && t.stats.delivered + |t.pending| == c.stats.delivered + |c.pending|
  {
    hide Drained;
    DrainTakesTheRun(c);
    assert Drained(c).stats.duplicates == c.stats.duplicates;
    hide CountersTrue;
    DrainedCounts(c);
  }

  lemma {:induction false} AskingKeepsDiscarded(s: Sub, rs: seq<Run>, now: real, delay: real)
    ensures var t := ConsideredAll(s, rs, now, delay);
            t.stats.discarded == s.stats.discarded && t.stats.delivered == s.stats.delivered
    decreases |rs|
  {
    if rs == [] {
    } else {
      AskingKeepsDiscarded(Considered(s, rs[0], now, delay), rs[1..], now, delay);
    }
  }

  lemma Remaining(m: map<nat, Msg>, gone: set<nat>)
    requires gone <= m.Keys
    ensures |m - gone| + |gone| == |m|
  {
    assert (m - gone).Keys == m.Keys - gone;
    assert |(m - gone).Keys| == |m - gone| && |m.Keys| == |m|;
  }

  // ---- Since when gaps are known ----

  /** Draining forgets since when the numbers it hands over were missing, and of no others. */
  lemma {:induction false} DrainingForgets(s: Sub)
    requires s.expected.Some?
    ensures var t, e := Drained(s), s.expected.value;
            t.expected.Some? && t.gapSeen == map g | g in s.gapSeen && !(e <= g < t.expected.value) :: s.gapSeen[g]
    decreases s.pending.Keys
  {
    var e := s.expected.value;
    if e !in s.pending {
    } else {
      DrainTakesTheRun(s);
      var next := Delivered(s.(gapSeen := s.gapSeen - {e}, pending := s.pending - {e}, expected := Some(e + 1)), s.pending[e]);
      DrainingForgets(next);
      assert Drained(s) == Drained(next);
      DrainTakesTheRun(next);
    }
  }

  /** A receipt that skips numbers forgets since when any number below the new expected one was missing. */
  lemma SkippingForgets(s: Sub, r: Body)
    requires s.expected.Some? && r.Receipt? && r.unavailable > 0 && s.expected.value < r.oldest
    ensures var t := Acknowledged(s, r);
            t.expected.Some? && t.gapSeen == map g | g in s.gapSeen && g >= t.expected.value :: s.gapSeen[g]
  {
    hide Drained;
    var u := s.(outstanding := s.outstanding - {(r.from, r.to)},
                expected := Some(r.oldest),
                gapSeen := map g | g in s.gapSeen && g >= r.oldest :: s.gapSeen[g],
                stats := s.stats.(retransFrames := s.stats.retransFrames + r.sent,
                                  unrecoverable := s.stats.unrecoverable + (r.oldest - s.expected.value)));
    DrainTakesTheRun(u);
    DrainingForgets(u);
    assert Acknowledged(s, r) == Drained(u);
  }

  /** A frame beyond a gap notes since when its first number is missing, unless that is known. */
  lemma ParkingNotes(s: Sub, m: Msg, via: bool, now: real)
    requires Ready(s) && m.number > s.expected.value && m.number !in s.pending
    ensures var t, e := Parked(s, m, via, now), s.expected.value;
            && t.gapSeen == (if e in s.gapSeen then s.gapSeen else s.gapSeen[e := now])
            && t.pending == s.pending[m.number := m]
            && t.stats.maxPending == Max(s.stats.maxPending, |t.pending|)
  {}

  /** Looking at a missing run counts a request when it is due, and a gap when it was not outstanding. */
  lemma LookingCounts(s: Sub, r: Run, now: real, delay: real)
    ensures var t := Considered(s, r, now, delay);
            && t.stats.retransRequests == s.stats.retransRequests + (if Due(s, r, now, delay) then 1 else 0)
            && t.stats.gapsDetected == s.stats.gapsDetected + (if Due(s, r, now, delay) && r !in s.outstanding then 1 else 0)
  {}

  // ---- Any arrivals ----

  predicate IsDataFrame(a: Arrival) {
    a.OverUdp? || (a.OverTcp? && !IsSnapshotFlagged(a.m) && a.m.msgType != MSG_ACK)
  }

  function DataFrames(arrivals: seq<Arrival>): nat {
    if arrivals == [] then 0 else DataFrames(arrivals[..|arrivals| - 1]) + if IsDataFrame(arrivals[|arrivals| - 1]) then 1 else 0
  }

  lemma ArrivalCounts(s: Sub, a: Arrival, delay: real)
    requires Ready(s) && (a.OverTcp? ==> !IsSnapshotFlagged(a.m))
    ensures a.OverTcp? ==> WellFormed(a.m)
    ensures var t := AfterArrival(s, a, delay); Ready(t) && Counts(s, t, if IsDataFrame(a) then 1 else 0)
  {
    hide Counts, Observed, Acknowledged, ConsideredAll, MissingRuns;
    NothingCounts(s);
    match a
    case OverUdp(m, t0, t1) =>
      FrameIsCounted(s, m, false, t0, t1, delay);
      ObservedAdvances(s, m, false, t0, t1, delay);
    case OverTcp(m, t0, t1) =>
      if m.msgType != MSG_ACK {
        FrameIsCounted(s, m, true, t0, t1, delay);
        ObservedAdvances(s, m, true, t0, t1, delay);
      } else if m.body.Receipt? {
        ReceiptCounts(s, m.body);
        AcknowledgedAdvances(s, m.body);
      }
    case Tick(now) =>
      TimerAdvances(s, now, delay);
      if s.pending != map[] {
        AskingCounts(s, MissingRuns(s.pending.Keys, s.expected.value, Greatest(s.pending.Keys)), now, delay);
      }
  }

  lemma NothingCounts(s: Sub)
    ensures Counts(s, s, 0)
  {}

  /** In every sequence of arrivals after the snapshot: frames handed over, waiting and counted as duplicates are
      together all data frames that arrived; and the counters of requests and of frames handed on are true. */
  lemma {:induction false} EveryFrameIsCounted(s: Sub, arrivals: seq<Arrival>, delay: real)
    requires Ready(s) && CountersTrue(s)
    requires forall a :: a in arrivals && a.OverTcp? ==> !IsSnapshotFlagged(a.m)
    ensures AllWellFormed(arrivals)
    ensures var t := Arrived(s, arrivals, delay);
            Ready(t) && CountersTrue(t) && Known(t) == Known(s) + DataFrames(arrivals)
    decreases |arrivals|
  {
    hide AfterArrival, Ready, CountersTrue, Known;
    if arrivals == [] {
    } else {
      var n := |arrivals| - 1;
      EveryFrameIsCounted(s, arrivals[..n], delay);
      assert arrivals[n] in arrivals;
      ArrivalCounts(Arrived(s, arrivals[..n], delay), arrivals[n], delay);
      assert arrivals[..|arrivals|] == arrivals;
      OneArrival(s, arrivals, delay, n);
    }
  }
}
