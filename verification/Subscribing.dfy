/** The multicast subscriber: putting frames back in order, asking for what is missing, skipping what is gone. */
module Subscribing {
  import opened Wrappers
  import opened Feed
  import opened Numbers

  const MAX_PENDING: nat := 200_000
  const RETRANS_TIMEOUT: real := 1.0

  datatype Stats = Stats(
    delivered: nat, duplicates: nat, discarded: nat, snapshotFrames: nat, gapsDetected: nat,
    retransRequests: nat, retransFrames: nat, unrecoverable: nat, reordered: nat, maxPending: nat)

  type Run = (nat, nat)

  /** `out` is what was handed to the consumer, `requests` what was asked of the recovery channel. */
  datatype Sub = Sub(
    expected: Option<nat>, pending: map<nat, Msg>, outstanding: map<Run, real>, gapSeen: map<nat, real>,
    stats: Stats, out: seq<Msg>, requests: seq<Run>)

  const START := Sub(None, map[], map[], map[], Stats(0, 0, 0, 0, 0, 0, 0, 0, 0, 0), [], [])

  // ---- Delivery in order ----

  function Delivered(s: Sub, m: Msg): Sub {
    s.(out := s.out + [m], stats := s.stats.(delivered := s.stats.delivered + 1))
  }

  /** Hands over pending frames as long as the expected one is there. */
  function Drained(s: Sub): (t: Sub)
    requires s.expected.Some?
    ensures t.expected.Some? && t.expected.value !in t.pending
    decreases s.pending.Keys
  {
    var e := s.expected.value;
    if e in s.pending then
      Drained(Delivered(s.(gapSeen := s.gapSeen - {e}, pending := s.pending - {e}, expected := Some(e + 1)), s.pending[e]))
    else s
  }

  lemma {:induction false} DrainTakesTheRun(s: Sub)
    requires s.expected.Some?
    ensures var t, e := Drained(s), s.expected.value;
            var k := t.expected.value;
            && e <= k && k !in s.pending && (forall i :: e <= i < k ==> i in s.pending)
            && t.pending == (map i | i in s.pending && !(e <= i < k) :: s.pending[i])
            && t.stats == s.stats.(delivered := s.stats.delivered + (k - e))
            && t.requests == s.requests && t.outstanding == s.outstanding
    decreases s.pending.Keys
  {
    var e := s.expected.value;
    if e in s.pending {
      DrainTakesTheRun(Delivered(s.(gapSeen := s.gapSeen - {e}, pending := s.pending - {e}, expected := Some(e + 1)), s.pending[e]));
    }
  }

  /** Draining hands over exactly the frames numbered from the expected one up to the first number missing. */
  lemma {:induction false} DrainHandsOverTheRun(s: Sub)
    requires s.expected.Some?
    ensures var t, e := Drained(s), s.expected.value;
            var k := t.expected.value;
            && e <= k && k !in s.pending && (forall i :: e <= i < k ==> i in s.pending)
            && |t.out| == |s.out| + (k - e) && t.out[..|s.out|] == s.out
            && (forall i :: e <= i < k ==> t.out[|s.out| + (i - e)] == s.pending[i])
            && t.pending == (map i | i in s.pending && !(e <= i < k) :: s.pending[i])
            && t.stats == s.stats.(delivered := s.stats.delivered + (k - e))
            && t.requests == s.requests && t.outstanding == s.outstanding
    decreases s.pending.Keys
  {
    DrainTakesTheRun(s);
    var e := s.expected.value;
    if e in s.pending {
      var next := Delivered(s.(gapSeen := s.gapSeen - {e}, pending := s.pending - {e}, expected := Some(e + 1)), s.pending[e]);
      var t := Drained(s);
      assert t == Drained(next);
      hide Drained;
      DrainHandsOverTheRun(next);
      assert t.out[..|s.out|] == t.out[..|next.out|][..|s.out|];
      assert t.out[|s.out|] == t.out[..|next.out|][|s.out|];
      forall i | e + 1 <= i < t.expected.value
        ensures t.out[|s.out| + (i - e)] == s.pending[i]
      {
        assert i in next.pending;
        assert t.out[|next.out| + (i - (e + 1))] == next.pending[i];
      }
    }
  }

  // ---- Missing runs ----

  /** The end of the run of missing numbers that holds `hi`. */
  function RunEnd(have: set<nat>, hi: nat, upto: nat): (r: nat)
    requires hi < upto
    ensures hi <= r < upto
    ensures forall i :: hi < i <= r ==> i !in have
    ensures r + 1 == upto || r + 1 in have
    decreases upto - hi
  {
    if hi + 1 < upto && hi + 1 !in have then RunEnd(have, hi + 1, upto) else hi
  }

  function MissingRuns(have: set<nat>, lo: nat, upto: nat): (rs: seq<Run>)
    decreases if lo < upto then upto - lo else 0
  {
    if lo >= upto then []
    else if lo in have then MissingRuns(have, lo + 1, upto)
    else [(lo, RunEnd(have, lo, upto))] + MissingRuns(have, RunEnd(have, lo, upto) + 1, upto)
  }

  /** `[a, b]` is a maximal interval of numbers in `[lo, upto)` that are not in `have`. */
  ghost predicate MaximalGap(have: set<nat>, lo: nat, upto: nat, r: Run) {
    && lo <= r.0 <= r.1 < upto
    && (forall i :: r.0 <= i <= r.1 ==> i !in have)
    && (r.0 == lo || r.0 - 1 in have)
    && (r.1 + 1 == upto || r.1 + 1 in have)
  }

  /** Starting lower, across a number that is there, changes nothing about the maximal gaps. */
  lemma GapsFromLower(have: set<nat>, lo: nat, from: nat, upto: nat, r: Run)
    requires lo < from && from - 1 in have
    ensures MaximalGap(have, from, upto, r) ==> MaximalGap(have, lo, upto, r)
    ensures MaximalGap(have, lo, upto, r) && r.0 >= from ==> MaximalGap(have, from, upto, r)
  {}

  /** The runs visited are the maximal gaps, all of them, each once and in ascending order. */
  lemma {:induction false} RunsAreTheMaximalGaps(have: set<nat>, lo: nat, upto: nat)
    ensures forall r :: r in MissingRuns(have, lo, upto) <==> MaximalGap(have, lo, upto, r)
    ensures forall i, j :: 0 <= i < j < |MissingRuns(have, lo, upto)| ==>
                             MissingRuns(have, lo, upto)[i].1 + 1 < MissingRuns(have, lo, upto)[j].0
    decreases if lo < upto then upto - lo else 0
  {
    if lo < upto {
      if lo in have {
        RunsAreTheMaximalGaps(have, lo + 1, upto);
        forall r
          ensures r in MissingRuns(have, lo, upto) <==> MaximalGap(have, lo, upto, r)
        {
          GapsFromLower(have, lo, lo + 1, upto, r);
        }
      } else {
        RunsAfter(have, lo, upto);
      }
    }
  }

  /** The only maximal gap below the next number that is there is the one that starts at `lo`. */
  lemma LowestGap(have: set<nat>, lo: nat, upto: nat, r: Run)
    requires lo < upto && lo !in have
    ensures var hi := RunEnd(have, lo, upto);
            MaximalGap(have, lo, upto, r) && r.0 < hi + 2 <==> r == (lo, hi)
  {
    var hi := RunEnd(have, lo, upto);
    if MaximalGap(have, lo, upto, r) && r.0 < hi + 2 {
      assert lo < r.0 <= hi ==> r.0 - 1 == lo || r.0 - 1 !in have;
      assert r.1 < hi ==> r.1 + 1 !in have;
      assert hi + 1 == upto || hi + 1 in have;
    }
  }

  /** The step of the proof across the gap that starts at `lo`. */
  lemma {:induction false} RunsAfter(have: set<nat>, lo: nat, upto: nat)
    requires lo < upto && lo !in have
    ensures forall r :: r in MissingRuns(have, lo, upto) <==> MaximalGap(have, lo, upto, r)
    ensures forall i, j :: 0 <= i < j < |MissingRuns(have, lo, upto)| ==>
                             MissingRuns(have, lo, upto)[i].1 + 1 < MissingRuns(have, lo, upto)[j].0
    decreases upto - lo, 0
  {
    var hi := RunEnd(have, lo, upto);
    var rest := MissingRuns(have, hi + 1, upto);
    assert MissingRuns(have, lo, upto) == [(lo, hi)] + rest;
    if hi + 1 < upto {
      assert rest == MissingRuns(have, hi + 2, upto);
      RunsAreTheMaximalGaps(have, hi + 2, upto);
      hide RunEnd, MissingRuns;
      forall r: Run
        ensures r in [(lo, hi)] + rest <==> MaximalGap(have, lo, upto, r)
      {
        GapsFromLower(have, lo, hi + 2, upto, r);
        LowestGap(have, lo, upto, r);
        assert r in rest <==> MaximalGap(have, hi + 2, upto, r);
      }
      forall j | 0 <= j < |rest|
        ensures hi + 1 < rest[j].0
      {
        assert rest[j] in rest;
      }
    } else {
      assert rest == [];
      forall r: Run
        ensures r in [(lo, hi)] <==> MaximalGap(have, lo, upto, r)
      {
        LowestGap(have, lo, upto, r);
      }
    }
  }

  // ---- Requests ----

  /** Whether a missing run is asked for now: not before the gap-fill delay, and not again before the timeout. */
  function Considered(s: Sub, r: Run, now: real, delay: real): (t: Sub)
    ensures t.expected == s.expected && t.pending == s.pending && t.out == s.out
    ensures t.requests == s.requests || t.requests == s.requests + [r]
  {
    var seen := if r.0 in s.gapSeen then s.gapSeen else s.gapSeen[r.0 := now];
    var t := s.(gapSeen := seen);
    if r !in s.outstanding && now - seen[r.0] < delay then t
    else if now - (if r in s.outstanding then s.outstanding[r] else 0.0) >= RETRANS_TIMEOUT then
      t.(outstanding := s.outstanding[r := now], requests := s.requests + [r],
         stats := s.stats.(retransRequests := s.stats.retransRequests + 1,
                           gapsDetected := s.stats.gapsDetected + if r in s.outstanding then 0 else 1))
    else t
  }

  function ConsideredAll(s: Sub, rs: seq<Run>, now: real, delay: real): (t: Sub)
    ensures t.expected == s.expected && t.pending == s.pending && t.out == s.out
    decreases |rs|
  {
    if rs == [] then s else ConsideredAll(Considered(s, rs[0], now, delay), rs[1..], now, delay)
  }

  function Requested(s: Sub, upto: nat, now: real, delay: real): Sub
    requires s.expected.Some?
  {
    ConsideredAll(s, MissingRuns(s.pending.Keys, s.expected.value, upto), now, delay)
  }

  // ---- Arrivals ----

  /** Before the snapshot: keep the frame, and when there are too many forget the one with the lowest number. */
  ghost function Buffered(s: Sub, m: Msg): Sub {
    var kept := s.pending[m.number := m];
    s.(pending := if |kept| > MAX_PENDING then kept - {Least(kept.Keys)} else kept)
  }

  /** A frame beyond a gap. */
  function Parked(s: Sub, m: Msg, viaRetrans: bool, now: real): Sub
    requires s.expected.Some?
  {
    if m.number in s.pending then s.(stats := s.stats.(duplicates := s.stats.duplicates + 1))
    else
      var kept := s.pending[m.number := m];
      s.(pending := kept,
         gapSeen := if s.expected.value in s.gapSeen then s.gapSeen else s.gapSeen[s.expected.value := now],
         stats := s.stats.(maxPending := if s.stats.maxPending < |kept| then |kept| else s.stats.maxPending,
                           reordered := s.stats.reordered + if viaRetrans then 0 else 1))
  }

  /** One data frame arrives. The clock is read at `t0` when it is parked and at `t1` when gaps are examined. */
  ghost function Observed(s: Sub, m: Msg, viaRetrans: bool, t0: real, t1: real, delay: real): Sub {
    if s.expected == None then Buffered(s, m)
    else if m.number < s.expected.value then s.(stats := s.stats.(duplicates := s.stats.duplicates + 1))
    else if m.number == s.expected.value then Drained(Delivered(s, m).(expected := Some(m.number + 1)))
    else Requested(Parked(s, m, viaRetrans, t0), m.number, t1, delay)
  }

  /** The snapshot ends: increments continue at `next`. */
  function Begun(s: Sub, next: nat): Sub {
    var stale := set k | k in s.pending && k < next;
    Drained(s.(expected := Some(next), pending := s.pending - stale,
               stats := s.stats.(discarded := s.stats.discarded + |stale|)))
  }

  ghost function SnapshotEnded(s: Sub, next: nat, now: real, delay: real): Sub {
    var b := Begun(s, next);
    if b.pending != map[] then Requested(b, Least(b.pending.Keys), now, delay) else b
  }

  /** What the publisher no longer has is counted and skipped. */
  function Skipped(s: Sub, oldest: nat): Sub
    requires s.expected.Some? && s.expected.value < oldest
  {
    Drained(s.(expected := Some(oldest),
               gapSeen := map g | g in s.gapSeen && g >= oldest :: s.gapSeen[g],
               stats := s.stats.(unrecoverable := s.stats.unrecoverable + (oldest - s.expected.value))))
  }

  function Acknowledged(s: Sub, r: Body): Sub
    requires r.Receipt?
  {
    var t := s.(outstanding := s.outstanding - {(r.from, r.to)},
                stats := s.stats.(retransFrames := s.stats.retransFrames + r.sent));
    if r.unavailable > 0 && s.expected.Some? && s.expected.value < r.oldest then Skipped(t, r.oldest) else t
  }

  /** A snapshot's closing message carries the snapshot's JSON. */
  predicate WellFormed(m: Msg) {
    IsSnapshotFlagged(m) && m.msgType == MSG_SNAPSHOT ==> m.body.Meta?
  }

  ghost function OnTcp(s: Sub, m: Msg, t0: real, t1: real, delay: real): Sub
    requires WellFormed(m)
  {
    if IsSnapshotFlagged(m) then
      if m.msgType == MSG_SNAPSHOT then SnapshotEnded(s, m.body.nextSeq, t1, delay)
      else s.(out := s.out + [m], stats := s.stats.(snapshotFrames := s.stats.snapshotFrames + 1))
    else if m.msgType == MSG_ACK then
      if m.body.Receipt? then Acknowledged(s, m.body) else s
    else Observed(s, m, true, t0, t1, delay)
  }

  ghost function OnTimer(s: Sub, now: real, delay: real): Sub {
    if s.expected.Some? && s.pending != map[] then Requested(s, Greatest(s.pending.Keys), now, delay) else s
  }

  // ---- The subscriber ----

  class McastSubscriber {
    const gapFillDelay: real
    var expected: Option<nat>
    var pending: map<nat, Msg>
    var outstanding: map<Run, real>
    var gapSeenAt: map<nat, real>
    var stats: Stats
    var out: seq<Msg>
    var requests: seq<Run>

    function State(): Sub
      reads this
    {
      Sub(expected, pending, outstanding, gapSeenAt, stats, out, requests)
    }

    constructor (delay: real)
      ensures State() == START && gapFillDelay == delay
    {
      gapFillDelay := delay;
      expected, pending, outstanding, gapSeenAt := None, map[], map[], map[];
      stats := START.stats;
      out, requests := [], [];
    }

    method Deliver(m: Msg)
      modifies this
      ensures State() == Delivered(old(State()), m)
    {
      stats := stats.(delivered := stats.delivered + 1);
      out := out + [m];
    }

    method DrainPending()
      requires expected.Some?
      modifies this
      ensures State() == Drained(old(State()))
    {
      while expected.value in pending
        invariant expected.Some? && Drained(State()) == Drained(old(State()))
        decreases pending.Keys
      {
        var e := expected.value;
        gapSeenAt := gapSeenAt - {e};
        var m := pending[e];
        pending := pending - {e};
        Deliver(m);
        expected := Some(e + 1);
      }
    }

    method Observe(m: Msg, viaRetrans: bool, t0: real, t1: real)
      modifies this
      ensures State() == Observed(old(State()), m, viaRetrans, t0, t1, gapFillDelay)
    {
      hide Drained, Requested;
      if expected == None {
        pending := pending[m.number := m];
        if |pending| > MAX_PENDING {
          var least := LeastKey(pending.Keys);
          pending := pending - {least};
        }
        return;
      }
      if m.number < expected.value {
        stats := stats.(duplicates := stats.duplicates + 1);
        return;
      }
      if m.number == expected.value {
        Deliver(m);
        expected := Some(expected.value + 1);
        DrainPending();
        return;
      }
      if m.number in pending {
        stats := stats.(duplicates := stats.duplicates + 1);
      } else {
        pending := pending[m.number := m];
        if stats.maxPending < |pending| {
          stats := stats.(maxPending := |pending|);
        }
        if !viaRetrans {
          stats := stats.(reordered := stats.reordered + 1);
        }
        if expected.value !in gapSeenAt {
          gapSeenAt := gapSeenAt[expected.value := t0];
        }
      }
      RequestMissing(m.number, t1);
    }

    method RequestMissing(upto: nat, now: real)
      requires expected.Some?
      modifies this
      ensures State() == Requested(old(State()), upto, now, gapFillDelay)
    {
      hide Considered;
      var lo := expected.value;
      ghost var have := pending.Keys;
      while lo < upto
        invariant pending == old(pending) && expected == old(expected)
        invariant ConsideredAll(State(), MissingRuns(have, lo, upto), now, gapFillDelay) == Requested(old(State()), upto, now, gapFillDelay)
        decreases if lo < upto then upto - lo else 0
      {
        if lo in pending {
          lo := lo + 1;
        } else {
          var hi := EndOfRun(lo, upto);
          ghost var rest := MissingRuns(have, hi + 1, upto);
          assert MissingRuns(have, lo, upto) == [(lo, hi)] + rest;
          assert ([(lo, hi)] + rest)[1..] == rest;
          Consider((lo, hi), now);
          lo := hi + 1;
        }
      }
    }

    method EndOfRun(lo: nat, upto: nat) returns (hi: nat)
      requires lo < upto
      ensures hi == RunEnd(pending.Keys, lo, upto)
    {
      hi := lo;
      while hi + 1 < upto && hi + 1 !in pending
        invariant lo <= hi < upto && RunEnd(pending.Keys, hi, upto) == RunEnd(pending.Keys, lo, upto)
      {
        hi := hi + 1;
      }
    }

    method Consider(key: Run, now: real)
      modifies this
      ensures State() == Considered(old(State()), key, now, gapFillDelay)
    {
      if key.0 !in gapSeenAt {
        gapSeenAt := gapSeenAt[key.0 := now];
      }
      var firstSeen := gapSeenAt[key.0];
      if key !in outstanding && now - firstSeen < gapFillDelay {
        return;
      }
      var asked := if key in outstanding then outstanding[key] else 0.0;
      if now - asked >= RETRANS_TIMEOUT {
        if key !in outstanding {
          stats := stats.(gapsDetected := stats.gapsDetected + 1);
        }
        outstanding := outstanding[key := now];
        stats := stats.(retransRequests := stats.retransRequests + 1);
        requests := requests + [key];
      }
    }

    method OnTcpFrame(m: Msg, t0: real, t1: real)
      requires WellFormed(m)
      modifies this
      ensures State() == OnTcp(old(State()), m, t0, t1, gapFillDelay)
    {
      hide Drained, Requested, Observed;
      if IsSnapshotFlagged(m) {
        if m.msgType == MSG_SNAPSHOT {
          EndSnapshot(m.body.nextSeq, t1);
        } else {
          stats := stats.(snapshotFrames := stats.snapshotFrames + 1);
          out := out + [m];
        }
        return;
      }
      if m.msgType == MSG_ACK {
        if m.body.Receipt? {
          Acknowledge(m.body);
        }
        return;
      }
      Observe(m, true, t0, t1);
    }

    method EndSnapshot(next: nat, now: real)
      modifies this
      ensures State() == SnapshotEnded(old(State()), next, now, gapFillDelay)
    {
      hide Drained, Requested;
      expected := Some(next);
      var stale := set k | k in pending && k < next;
      pending := pending - stale;
      stats := stats.(discarded := stats.discarded + |stale|);
      DrainPending();
      if pending != map[] {
        var least := LeastKey(pending.Keys);
        RequestMissing(least, now);
      }
    }

    method Acknowledge(r: Body)
      requires r.Receipt?
      modifies this
      ensures State() == Acknowledged(old(State()), r)
    {
      hide Drained;
      outstanding := outstanding - {(r.from, r.to)};
      stats := stats.(retransFrames := stats.retransFrames + r.sent);
      if r.unavailable > 0 && expected.Some? && expected.value < r.oldest {
        stats := stats.(unrecoverable := stats.unrecoverable + (r.oldest - expected.value));
        gapSeenAt := map g | g in gapSeenAt && g >= r.oldest :: gapSeenAt[g];
        expected := Some(r.oldest);
        DrainPending();
      }
    }

    method OnDatagram(ms: seq<Msg>, t0: seq<real>, t1: seq<real>)
      requires |t0| == |t1| == |ms|
      modifies this
      ensures State() == ObservedAll(old(State()), ms, t0, t1, gapFillDelay)
    {
      hide Observed;
      for i := 0 to |ms|
        invariant State() == ObservedAll(old(State()), ms[..i], t0[..i], t1[..i], gapFillDelay)
      {
        assert ms[..i + 1][..i] == ms[..i] && t0[..i + 1][..i] == t0[..i] && t1[..i + 1][..i] == t1[..i];
        Observe(ms[i], false, t0[i], t1[i]);
      }
      assert ms[..|ms|] == ms && t0[..|ms|] == t0 && t1[..|ms|] == t1;
    }

    method OnTimerTick(now: real)
      modifies this
      ensures State() == OnTimer(old(State()), now, gapFillDelay)
    {
      hide Requested;
      if expected.Some? && pending != map[] {
        var greatest := GreatestKey(pending.Keys);
        RequestMissing(greatest, now);
      }
    }
  }

  ghost function ObservedAll(s: Sub, ms: seq<Msg>, t0: seq<real>, t1: seq<real>, delay: real): Sub
    requires |t0| == |t1| == |ms|
    decreases |ms|
  {
    if ms == [] then s else
      var n := |ms| - 1;
      Observed(ObservedAll(s, ms[..n], t0[..n], t1[..n], delay), ms[n], false, t0[n], t1[n], delay)
  }
}
