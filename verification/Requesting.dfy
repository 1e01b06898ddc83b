/** When the subscriber asks for a missing run: not before the gap-fill delay, and not again before the timeout. */
module Requesting {
  import opened Wrappers
  import opened Feed
  import opened Numbers
  import opened Subscribing
  import opened Progress

  /** The time at which gaps are examined during an arrival. */
  function TimeOf(a: Arrival): real {
    match a
    case OverTcp(_, _, t1) => t1
    case OverUdp(_, _, t1) => t1
    case Tick(now) => now
  }

  /** A receipt that the subscriber takes note of. */
  predicate IsReceipt(a: Arrival) {
    a.OverTcp? && !IsSnapshotFlagged(a.m) && a.m.msgType == MSG_ACK && a.m.body.Receipt?
  }

  predicate IsReceiptFor(a: Arrival, r: Run) {
    IsReceipt(a) && (a.m.body.from, a.m.body.to) == r
  }

  /** Between `s` and `t` the run was asked for. */
  ghost predicate Asked(s: Sub, t: Sub, r: Run) {
    s.requests <= t.requests && r in t.requests[|s.requests|..]
  }

  ghost predicate SameTime(s: Sub, t: Sub, r: Run) {
    (r in s.outstanding <==> r in t.outstanding) && (r in s.outstanding ==> t.outstanding[r] == s.outstanding[r])
  }

  /** From `s` to `t`, at `now`: the time of the last request for `r` is kept unless `r` is asked for again, and that
      only once the timeout has passed; and a first request comes only once the delay has passed since the start of
      the run was first seen missing. */
  ghost predicate AsksInTime(s: Sub, t: Sub, r: Run, now: real, delay: real) {
    && s.requests <= t.requests
    && (Asked(s, t, r) ==> r in t.outstanding && t.outstanding[r] == now)
    && (Asked(s, t, r) && r in s.outstanding ==> now - s.outstanding[r] >= RETRANS_TIMEOUT)
    && (Asked(s, t, r) && r !in s.outstanding ==> r.0 in t.gapSeen && now - t.gapSeen[r.0] >= delay)
    && (!Asked(s, t, r) ==> SameTime(s, t, r))
  }

  lemma ConsideredInTime(s: Sub, c: Run, now: real, delay: real, r: Run)
    ensures var t := Considered(s, c, now, delay);
            && AsksInTime(s, t, r, now, delay)
            && forall g :: g in s.gapSeen ==> g in t.gapSeen && t.gapSeen[g] == s.gapSeen[g]
  {
    var t := Considered(s, c, now, delay);
    if t.requests == s.requests + [c] {
      assert t.requests[|s.requests|..] == [c];
    } else {
      assert t.requests[|s.requests|..] == [];
    }
  }

  lemma AskedInTwo(s: Sub, c: Sub, t: Sub, r: Run)
    requires s.requests <= c.requests <= t.requests
    ensures Asked(s, t, r) <==> Asked(s, c, r) || Asked(c, t, r)
  {
    assert t.requests[|s.requests|..] == c.requests[|s.requests|..] + t.requests[|c.requests|..];
  }

  lemma InTimeInTwo(s: Sub, c: Sub, t: Sub, r: Run, now: real, delay: real)
    requires AsksInTime(s, c, r, now, delay) && AsksInTime(c, t, r, now, delay)
    requires forall g :: g in c.gapSeen ==> g in t.gapSeen && t.gapSeen[g] == c.gapSeen[g]
    ensures AsksInTime(s, t, r, now, delay)
  {
    AskedInTwo(s, c, t, r);
    hide Asked;
  }

  lemma {:induction false} ConsideredAllInTime(s: Sub, rs: seq<Run>, now: real, delay: real, r: Run)
    ensures var t := ConsideredAll(s, rs, now, delay);
            && AsksInTime(s, t, r, now, delay)
            && forall g :: g in s.gapSeen ==> g in t.gapSeen && t.gapSeen[g] == s.gapSeen[g]
    decreases |rs|
  {
    if rs == [] {
    } else {
      var c := Considered(s, rs[0], now, delay);
      ConsideredInTime(s, rs[0], now, delay, r);
      hide Considered, AsksInTime;
      ConsideredAllInTime(c, rs[1..], now, delay, r);
      InTimeInTwo(s, c, ConsideredAll(s, rs, now, delay), r, now, delay);
    }
  }

  /** What does not ask and does not touch the times of requests. */
  lemma NothingAsked(s: Sub, t: Sub, r: Run, now: real, delay: real)
    requires t.requests == s.requests
    ensures !Asked(s, t, r)
    ensures SameTime(s, t, r) ==> AsksInTime(s, t, r, now, delay)
  {
    assert t.requests[|s.requests|..] == [];
  }

  lemma RequestedInTime(s: Sub, p: Sub, upto: nat, now: real, delay: real, r: Run)
    requires p.expected.Some? && p.requests == s.requests && p.outstanding == s.outstanding
    ensures AsksInTime(s, Requested(p, upto, now, delay), r, now, delay)
  {
    hide MissingRuns;
    ConsideredAllInTime(p, MissingRuns(p.pending.Keys, p.expected.value, upto), now, delay, r);
  }

  lemma ObservedInTime(s: Sub, m: Msg, via: bool, t0: real, t1: real, delay: real, r: Run)
    ensures AsksInTime(s, Observed(s, m, via, t0, t1, delay), r, t1, delay)
  {
    hide Drained, Requested, AsksInTime;
    var t := Observed(s, m, via, t0, t1, delay);
    if s.expected.Some? && m.number > s.expected.value {
      RequestedInTime(s, Parked(s, m, via, t0), m.number, t1, delay, r);
    } else {
      if s.expected.Some? && m.number == s.expected.value {
        DrainTakesTheRun(Delivered(s, m).(expected := Some(m.number + 1)));
      }
      NothingAsked(s, t, r, t1, delay);
    }
  }

  lemma SnapshotEndedInTime(s: Sub, next: nat, now: real, delay: real, r: Run)
    ensures AsksInTime(s, SnapshotEnded(s, next, now, delay), r, now, delay)
  {
    hide Drained, Requested, AsksInTime;
    var stale := set k | k in s.pending && k < next;
    DrainTakesTheRun(s.(expected := Some(next), pending := s.pending - stale,
                        stats := s.stats.(discarded := s.stats.discarded + |stale|)));
    var b := Begun(s, next);
    if b.pending != map[] {
      RequestedInTime(s, b, Least(b.pending.Keys), now, delay, r);
    } else {
      NothingAsked(s, b, r, now, delay);
    }
  }

  ghost function AfterArrival(s: Sub, a: Arrival, delay: real): Sub
    requires a.OverTcp? ==> WellFormed(a.m)
  {
    match a
    case OverTcp(m, t0, t1) => OnTcp(s, m, t0, t1, delay)
    case OverUdp(m, t0, t1) => Observed(s, m, false, t0, t1, delay)
    case Tick(now) => OnTimer(s, now, delay)
  }

  /** Every arrival: requests are made in time; only the receipt for a run makes the subscriber forget when it asked. */
  lemma AskedOnlyWhenDue(s: Sub, a: Arrival, delay: real, r: Run)
    requires a.OverTcp? ==> WellFormed(a.m)
    ensures var t := AfterArrival(s, a, delay);
            && (Asked(s, t, r) ==> AsksInTime(s, t, r, TimeOf(a), delay))
            && (!IsReceiptFor(a, r) ==> AsksInTime(s, t, r, TimeOf(a), delay))
  {
    hide Drained, Requested, Observed, AsksInTime, SnapshotEnded, Asked;
    var t := AfterArrival(s, a, delay);
    match a
    case OverUdp(m, t0, t1) => ObservedInTime(s, m, false, t0, t1, delay, r);
    case Tick(now) =>
      if s.expected.Some? && s.pending != map[] {
        RequestedInTime(s, s, Greatest(s.pending.Keys), now, delay, r);
      } else {
        NothingAsked(s, t, r, now, delay);
      }
    case OverTcp(m, t0, t1) =>
      if IsSnapshotFlagged(m) && m.msgType == MSG_SNAPSHOT {
        SnapshotEndedInTime(s, m.body.nextSeq, t1, delay, r);
      } else if !IsSnapshotFlagged(m) && m.msgType != MSG_ACK {
        ObservedInTime(s, m, true, t0, t1, delay, r);
      } else {
        if m.body.Receipt? && !IsSnapshotFlagged(m) {
          AcknowledgedAsksNothing(s, m.body);
        }
        NothingAsked(s, t, r, t1, delay);
      }
  }

  lemma AcknowledgedAsksNothing(s: Sub, b: Body)
    requires b.Receipt?
    ensures var t := Acknowledged(s, b);
            t.requests == s.requests && t.outstanding == s.outstanding - {(b.from, b.to)}
  {
    hide Drained;
    var t := s.(outstanding := s.outstanding - {(b.from, b.to)},
                stats := s.stats.(retransFrames := s.stats.retransFrames + b.sent));
    if b.unavailable > 0 && s.expected.Some? && s.expected.value < b.oldest {
      DrainTakesTheRun(t.(expected := Some(b.oldest),
                          gapSeen := map g | g in t.gapSeen && g >= b.oldest :: t.gapSeen[g],
                          stats := t.stats.(unrecoverable := t.stats.unrecoverable + (b.oldest - t.expected.value))));
    }
  }

  /** What was asked for once stays on record, and what is outstanding was asked for. */
  lemma RequestsGrow(s: Sub, a: Arrival, delay: real)
    requires a.OverTcp? ==> WellFormed(a.m)
    ensures var t := AfterArrival(s, a, delay);
            && s.requests <= t.requests
            && forall r :: r in t.outstanding ==> r in s.outstanding || r in t.requests
  {
    var t := AfterArrival(s, a, delay);
    if IsReceipt(a) {
      AcknowledgedAsksNothing(s, a.m.body);
    } else {
      AskedOnlyWhenDue(s, a, delay, (0, 0));
      hide AfterArrival, IsReceipt, Asked;
      forall r | r in t.outstanding
        ensures r in s.outstanding || r in t.requests
      {
        AskedOnlyWhenDue(s, a, delay, r);
        if Asked(s, t, r) {
          AskedIsOnRecord(s, t, r);
        }
      }
    }
  }

  lemma AskedIsOnRecord(s: Sub, t: Sub, r: Run)
    requires Asked(s, t, r)
    ensures r in t.requests
  {}

  ghost predicate AsksAt(s: Sub, arrivals: seq<Arrival>, delay: real, i: nat, r: Run)
    requires AllWellFormed(arrivals) && i < |arrivals|
  {
    Asked(Arrived(s, arrivals[..i], delay), Arrived(s, arrivals[..i + 1], delay), r)
  }

  lemma OneArrival(s: Sub, arrivals: seq<Arrival>, delay: real, i: nat)
    requires AllWellFormed(arrivals) && i < |arrivals|
    ensures arrivals[i].OverTcp? ==> WellFormed(arrivals[i].m)
    ensures Arrived(s, arrivals[..i + 1], delay) == AfterArrival(Arrived(s, arrivals[..i], delay), arrivals[i], delay)
  {
    hide WellFormed, OnTcp, Observed, OnTimer;
    assert arrivals[..i + 1][..i] == arrivals[..i];
    assert arrivals[i] in arrivals;
  }

  lemma {:induction false} StillOutstanding(s: Sub, arrivals: seq<Arrival>, delay: real, i: nat, j: nat, r: Run)
    requires AllWellFormed(arrivals) && i < j <= |arrivals| && AsksAt(s, arrivals, delay, i, r)
    requires forall k :: i < k < j ==> !IsReceiptFor(arrivals[k], r)
    ensures var t := Arrived(s, arrivals[..j], delay); r in t.outstanding && t.outstanding[r] >= TimeOf(arrivals[i])
    decreases j
  {
    hide AfterArrival, Arrived, WellFormed;
    var k := j - 1;
    OneArrival(s, arrivals, delay, k);
    AskedOnlyWhenDue(Arrived(s, arrivals[..k], delay), arrivals[k], delay, r);
    if i == k {
    } else {
      StillOutstanding(s, arrivals, delay, i, k, r);
    }
  }

  /** In every sequence of arrivals: two requests for the same run, with no receipt for it in between, lie at least the
      timeout apart. */
  lemma RequestsLieApart(s: Sub, arrivals: seq<Arrival>, delay: real, i: nat, j: nat, r: Run)
    requires AllWellFormed(arrivals) && i < j < |arrivals|
    requires AsksAt(s, arrivals, delay, i, r) && AsksAt(s, arrivals, delay, j, r)
    requires forall k :: i < k < j ==> !IsReceiptFor(arrivals[k], r)
    ensures TimeOf(arrivals[j]) - TimeOf(arrivals[i]) >= 1.0
  {
    hide AfterArrival, Arrived, WellFormed;
    StillOutstanding(s, arrivals, delay, i, j, r);
    OneArrival(s, arrivals, delay, j);
    AskedOnlyWhenDue(Arrived(s, arrivals[..j], delay), arrivals[j], delay, r);
  }

  // ---- What is due is asked for ----

  /** A run may be asked for at `now`: asked before, the timeout has passed; else the delay has, since its start was
      first seen missing, and the clock is past the first timeout. */
  predicate Due(s: Sub, r: Run, now: real, delay: real) {
    if r in s.outstanding then now - s.outstanding[r] >= 1.0
    else now - (if r.0 in s.gapSeen then s.gapSeen[r.0] else now) >= delay && now >= 1.0
  }

  ghost predicate Ascending(rs: seq<Run>) {
    forall i, j :: 0 <= i < j < |rs| ==> rs[i].0 < rs[j].0
  }

  lemma ConsideredAsks(s: Sub, c: Run, now: real, delay: real, r: Run)
    ensures var t := Considered(s, c, now, delay);
            && (Asked(s, t, r) <==> r == c && Due(s, c, now, delay))
            && (r.0 != c.0 ==> (Due(t, r, now, delay) <==> Due(s, r, now, delay)))
  {
    var t := Considered(s, c, now, delay);
    if t.requests == s.requests + [c] {
      assert t.requests[|s.requests|..] == [c];
    } else {
      assert t.requests[|s.requests|..] == [];
    }
  }

  lemma {:induction false} ConsideredAllAsks(s: Sub, rs: seq<Run>, now: real, delay: real, r: Run)
    requires Ascending(rs)
    ensures var t := ConsideredAll(s, rs, now, delay);
            s.requests <= t.requests && (Asked(s, t, r) <==> r in rs && Due(s, r, now, delay))
    decreases |rs|
  {
    if rs == [] {
      NothingAsked(s, s, r, now, delay);
    } else {
      var c := Considered(s, rs[0], now, delay);
      ConsideredAsks(s, rs[0], now, delay, r);
      ConsideredAllAsks(c, rs[1..], now, delay, r);
      AskedInTwo(s, c, ConsideredAll(s, rs, now, delay), r);
      hide Considered, Due, Asked;
      assert r in rs <==> r == rs[0] || r in rs[1..];
      assert forall i :: 1 <= i < |rs| ==> rs[1..][i - 1] == rs[i];
    }
  }

  lemma RequestedAsks(s: Sub, p: Sub, upto: nat, now: real, delay: real, r: Run)
    requires p.expected.Some? && p.requests == s.requests
    ensures Asked(s, Requested(p, upto, now, delay), r) <==>
            MaximalGap(p.pending.Keys, p.expected.value, upto, r) && Due(p, r, now, delay)
  {
    var rs := MissingRuns(p.pending.Keys, p.expected.value, upto);
    RunsAreTheMaximalGaps(p.pending.Keys, p.expected.value, upto);
    hide MissingRuns, Due, MaximalGap;
    RunsAscend(p.pending.Keys, p.expected.value, upto);
    ConsideredAllAsks(p, rs, now, delay, r);
  }

  lemma RunsAscend(have: set<nat>, lo: nat, upto: nat)
    ensures Ascending(MissingRuns(have, lo, upto))
  {
    RunsAreTheMaximalGaps(have, lo, upto);
    hide MissingRuns;
    var rs := MissingRuns(have, lo, upto);
    assert forall i :: 0 <= i < |rs| ==> rs[i] in rs;
  }

  /** In which state an arrival makes the subscriber look for missing runs, and below which number. */
  ghost function Examined(s: Sub, a: Arrival): Option<(Sub, nat)>
    requires a.OverTcp? ==> WellFormed(a.m)
  {
    match a
    case Tick(_) => if s.expected.Some? && s.pending != map[] then Some((s, Greatest(s.pending.Keys))) else None
    case OverUdp(m, t0, _) => if s.expected.Some? && m.number > s.expected.value then Some((Parked(s, m, false, t0), m.number)) else None
    case OverTcp(m, t0, _) =>
      if IsSnapshotFlagged(m) then
        if m.msgType == MSG_SNAPSHOT && Begun(s, m.body.nextSeq).pending != map[] then
          Some((Begun(s, m.body.nextSeq), Least(Begun(s, m.body.nextSeq).pending.Keys)))
        else None
      else if m.msgType != MSG_ACK && s.expected.Some? && m.number > s.expected.value then Some((Parked(s, m, true, t0), m.number))
      else None
  }

  lemma ObservedAsks(s: Sub, m: Msg, via: bool, t0: real, t1: real, delay: real, r: Run)
    ensures Asked(s, Observed(s, m, via, t0, t1, delay), r) <==>
            s.expected.Some? && m.number > s.expected.value &&
            var p := Parked(s, m, via, t0);
            MaximalGap(p.pending.Keys, p.expected.value, m.number, r) && Due(p, r, t1, delay)
  {
    hide Drained, Requested, MaximalGap, Due;
    var t := Observed(s, m, via, t0, t1, delay);
    if s.expected.Some? && m.number > s.expected.value {
      RequestedAsks(s, Parked(s, m, via, t0), m.number, t1, delay, r);
    } else {
      if s.expected.Some? && m.number == s.expected.value {
        DrainTakesTheRun(Delivered(s, m).(expected := Some(m.number + 1)));
      }
      NothingAsked(s, t, r, t1, delay);
    }
  }

  lemma BegunAsksNothing(s: Sub, next: nat)
    ensures Begun(s, next).requests == s.requests && Begun(s, next).expected.Some?
  {
    hide Drained;
    var stale := set k | k in s.pending && k < next;
    DrainTakesTheRun(s.(expected := Some(next), pending := s.pending - stale,
                        stats := s.stats.(discarded := s.stats.discarded + |stale|)));
  }

  /** Every arrival asks for exactly the maximal missing runs below the number it looks up to that are due. */
  lemma AskedExactlyWhenDue(s: Sub, a: Arrival, delay: real, r: Run)
    requires a.OverTcp? ==> WellFormed(a.m)
    ensures Asked(s, AfterArrival(s, a, delay), r) <==>
            Examined(s, a).Some? &&
            var (p, upto) := Examined(s, a).value;
            p.expected.Some? && MaximalGap(p.pending.Keys, p.expected.value, upto, r) && Due(p, r, TimeOf(a), delay)
  {
    hide Drained, Requested, Observed, Begun, Asked, MaximalGap, Due;
    var t := AfterArrival(s, a, delay);
    match a
    case OverUdp(m, t0, t1) => ObservedAsks(s, m, false, t0, t1, delay, r);
    case Tick(now) =>
      if s.expected.Some? && s.pending != map[] {
        RequestedAsks(s, s, Greatest(s.pending.Keys), now, delay, r);
      } else {
        NothingAsked(s, t, r, now, delay);
      }
    case OverTcp(m, t0, t1) =>
      if IsSnapshotFlagged(m) && m.msgType == MSG_SNAPSHOT {
        var b := Begun(s, m.body.nextSeq);
        BegunAsksNothing(s, m.body.nextSeq);
        if b.pending != map[] {
          RequestedAsks(s, b, Least(b.pending.Keys), t1, delay, r);
        } else {
          NothingAsked(s, t, r, t1, delay);
        }
      } else if !IsSnapshotFlagged(m) && m.msgType != MSG_ACK {
        ObservedAsks(s, m, true, t0, t1, delay, r);
      } else {
        if m.body.Receipt? && !IsSnapshotFlagged(m) {
          AcknowledgedAsksNothing(s, m.body);
        }
        NothingAsked(s, t, r, t1, delay);
      }
  }
}
