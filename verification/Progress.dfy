/** Recovery makes progress: an answered request closes the gap it asked about. */
module Progress {
  import opened Wrappers
  import opened Bytes
  import opened Feed
  import opened Numbers
  import opened Publishing
  import opened Subscribing

  /** Number `i` is behind the subscriber or waiting in its buffer. */
  ghost predicate Have(s: Sub, i: nat) {
    s.expected.Some? && (i < s.expected.value || i in s.pending)
  }

  ghost predicate Ready(s: Sub) {
    s.expected.Some? && s.expected.value !in s.pending
  }

  /** From `s` to `t` nothing that was there is lost and the expected number does not fall. */
  ghost predicate Advances(s: Sub, t: Sub) {
    && Ready(t) && s.expected.Some? && s.expected.value <= t.expected.value
    && forall i :: Have(s, i) ==> Have(t, i)
  }

  lemma DrainedAdvances(s: Sub)
    requires s.expected.Some?
    ensures Advances(s, Drained(s)) && Drained(s).stats.unrecoverable == s.stats.unrecoverable
  {
    hide Drained;
    DrainHandsOverTheRun(s);
  }

  lemma {:induction false} AskingAdvances(s: Sub, rs: seq<Run>, now: real, delay: real)
    requires Ready(s)
    ensures Advances(s, ConsideredAll(s, rs, now, delay))
    ensures ConsideredAll(s, rs, now, delay).stats.unrecoverable == s.stats.unrecoverable
    decreases |rs|
  {
    if rs == [] {
    } else {
      var c := Considered(s, rs[0], now, delay);
      assert c.stats.unrecoverable == s.stats.unrecoverable;
      hide Considered;
      AskingAdvances(c, rs[1..], now, delay);
      assert forall i :: Have(s, i) ==> Have(c, i);
    }
  }

  lemma ObservedAdvances(s: Sub, m: Msg, via: bool, t0: real, t1: real, delay: real)
    requires Ready(s)
    ensures var t := Observed(s, m, via, t0, t1, delay);
            Advances(s, t) && Have(t, m.number) && t.stats.unrecoverable == s.stats.unrecoverable
  {
    hide Drained, ConsideredAll, MissingRuns;
    if m.number == s.expected.value {
      var d := Delivered(s, m).(expected := Some(m.number + 1));
      DrainedAdvances(d);
      assert forall i :: Have(s, i) ==> Have(d, i);
      assert Have(d, m.number);
    } else if m.number > s.expected.value {
      var p := Parked(s, m, via, t0);
      assert forall i :: Have(s, i) ==> Have(p, i);
      assert Have(p, m.number);
      AskingAdvances(p, MissingRuns(p.pending.Keys, p.expected.value, m.number), t1, delay);
    }
  }

  lemma AcknowledgedAdvances(s: Sub, r: Body)
    requires Ready(s) && r.Receipt?
    ensures var t := Acknowledged(s, r);
            && Advances(s, t)
            && (r.unavailable > 0 ==> t.expected.value >= r.oldest)
            && (r.unavailable == 0 || s.expected.value >= r.oldest ==> t.stats.unrecoverable == s.stats.unrecoverable)
            && (r.unavailable > 0 && s.expected.value < r.oldest ==>
                  t.stats.unrecoverable == s.stats.unrecoverable + (r.oldest - s.expected.value))
  {
    hide Drained;
    if r.unavailable > 0 && s.expected.value < r.oldest {
      var t := s.(outstanding := s.outstanding - {(r.from, r.to)},
                  stats := s.stats.(retransFrames := s.stats.retransFrames + r.sent));
      var u := t.(expected := Some(r.oldest),
                  gapSeen := map g | g in t.gapSeen && g >= r.oldest :: t.gapSeen[g],
                  stats := t.stats.(unrecoverable := t.stats.unrecoverable + (r.oldest - t.expected.value)));
      DrainedAdvances(u);
      assert forall i :: Have(s, i) ==> Have(u, i);
    }
  }

  // ---- A whole answer, with datagrams and timer ticks in between ----

  datatype Arrival = OverTcp(m: Msg, t0: real, t1: real) | OverUdp(m: Msg, t0: real, t1: real) | Tick(now: real)

  function TcpPart(arrivals: seq<Arrival>): seq<Msg>
    decreases |arrivals|
  {
    if arrivals == [] then []
    else
      var front, a := TcpPart(arrivals[..|arrivals| - 1]), arrivals[|arrivals| - 1];
      if a.OverTcp? then front + [a.m] else front
  }

  ghost predicate AllWellFormed(arrivals: seq<Arrival>) {
    forall a :: a in arrivals && a.OverTcp? ==> WellFormed(a.m)
  }

  ghost function Arrived(s: Sub, arrivals: seq<Arrival>, delay: real): Sub
    requires AllWellFormed(arrivals)
    decreases |arrivals|
  {
    if arrivals == [] then s
    else
      var front := Arrived(s, arrivals[..|arrivals| - 1], delay);
      match arrivals[|arrivals| - 1]
      case OverTcp(m, t0, t1) => OnTcp(front, m, t0, t1, delay)
      case OverUdp(m, t0, t1) => Observed(front, m, false, t0, t1, delay)
      case Tick(now) => OnTimer(front, now, delay)
  }

  /** After the first `k` messages of the answer: what they carried is there. */
  ghost predicate AnsweredUpTo(s: Sub, t: Sub, p: Pub, from: u64, to: u64, k: nat) {
    var ms, r := Resent(p, from, to), ReceiptFor(p, from, to).body;
    && Ready(t) && s.expected.Some? && s.expected.value <= t.expected.value
    && k <= |ms| + 1
    && (forall j :: 0 <= j < k && j < |ms| ==> Have(t, ms[j].number))
    && (k <= |ms| ==> t.stats.unrecoverable == s.stats.unrecoverable)
    && (k == |ms| + 1 ==>
          && (r.unavailable > 0 ==> t.expected.value >= r.oldest)
          && (r.unavailable == 0 ==> t.stats.unrecoverable == s.stats.unrecoverable))
  }

  lemma TimerAdvances(s: Sub, now: real, delay: real)
    requires Ready(s)
    ensures Advances(s, OnTimer(s, now, delay)) && OnTimer(s, now, delay).stats.unrecoverable == s.stats.unrecoverable
  {
    hide ConsideredAll, MissingRuns;
    if s.pending != map[] {
      AskingAdvances(s, MissingRuns(s.pending.Keys, s.expected.value, Greatest(s.pending.Keys)), now, delay);
    }
  }

  lemma AnswerAdvances(s: Sub, t: Sub, u: Sub, p: Pub, from: u64, to: u64, k: nat)
    requires AnsweredUpTo(s, t, p, from, to, k) && Advances(t, u) && u.stats.unrecoverable == t.stats.unrecoverable
    ensures AnsweredUpTo(s, u, p, from, to, k)
  {
    hide Resent, ReceiptFor;
  }

  lemma FrameOfAnswer(s: Sub, t: Sub, p: Pub, from: u64, to: u64, k: nat, t0: real, t1: real, delay: real)
    requires AnsweredUpTo(s, t, p, from, to, k) && k < |Resent(p, from, to)| && Publishable(Resent(p, from, to)[k])
    ensures AnsweredUpTo(s, OnTcp(t, Resent(p, from, to)[k], t0, t1, delay), p, from, to, k + 1)
  {
    hide Resent, ReceiptFor, Observed, Have;
    var m := Resent(p, from, to)[k];
    ObservedAdvances(t, m, true, t0, t1, delay);
  }

  lemma EndOfAnswer(s: Sub, t: Sub, p: Pub, from: u64, to: u64, t0: real, t1: real, delay: real)
    requires AnsweredUpTo(s, t, p, from, to, |Resent(p, from, to)|)
    ensures WellFormed(ReceiptFor(p, from, to))
    ensures AnsweredUpTo(s, OnTcp(t, ReceiptFor(p, from, to), t0, t1, delay), p, from, to, |Resent(p, from, to)| + 1)
  {
    hide Resent, Acknowledged, Observed, Have, LastServed, Wrap;
    AcknowledgedAdvances(t, ReceiptFor(p, from, to).body);
  }

  lemma NextOfAnswer(s: Sub, t: Sub, p: Pub, from: u64, to: u64, k: nat, m: Msg, t0: real, t1: real, delay: real)
    requires PubInv(p) && AnsweredUpTo(s, t, p, from, to, k) && k < |Response(p, from, to)| && m == Response(p, from, to)[k]
    requires WellFormed(m)
    ensures AnsweredUpTo(s, OnTcp(t, m, t0, t1, delay), p, from, to, k + 1)
  {
    var ms := Resent(p, from, to);
    ResentByCollecting(p, from, to);
    assert forall x :: x in ms ==> x in p.history;
    assert k < |ms| ==> ms[k] in ms;
    hide Resent, ReceiptFor, AnsweredUpTo, OnTcp, LastServed;
    if k < |ms| {
      assert Publishable(ms[k]);
      FrameOfAnswer(s, t, p, from, to, k, t0, t1, delay);
    } else {
      EndOfAnswer(s, t, p, from, to, t0, t1, delay);
    }
  }

  lemma {:induction false} AnswerSoFar(s: Sub, p: Pub, from: u64, to: u64, arrivals: seq<Arrival>, delay: real)
    requires PubInv(p) && Ready(s) && AllWellFormed(arrivals) && TcpPart(arrivals) <= Response(p, from, to)
    ensures AnsweredUpTo(s, Arrived(s, arrivals, delay), p, from, to, |TcpPart(arrivals)|)
    decreases |arrivals|
  {
    hide PubInv, OnTcp, Observed, OnTimer, Response, AnsweredUpTo, WellFormed;
    if arrivals == [] {
      NothingAnswered(s, p, from, to);
    } else {
      var front, a := arrivals[..|arrivals| - 1], arrivals[|arrivals| - 1];
      var k := |TcpPart(front)|;
      assert TcpPart(front) <= Response(p, from, to);
      AnswerSoFar(s, p, from, to, front, delay);
      var t := Arrived(s, front, delay);
      ReadyWhenAnswered(s, t, p, from, to, k);
      match a
      case OverTcp(m, t0, t1) =>
        assert m == TcpPart(arrivals)[k] == Response(p, from, to)[k];
        assert a in arrivals;
        NextOfAnswer(s, t, p, from, to, k, m, t0, t1, delay);
      case OverUdp(m, t0, t1) =>
        ObservedAdvances(t, m, false, t0, t1, delay);
        AnswerAdvances(s, t, Observed(t, m, false, t0, t1, delay), p, from, to, k);
      case Tick(now) =>
        TimerAdvances(t, now, delay);
        AnswerAdvances(s, t, OnTimer(t, now, delay), p, from, to, k);
    }
  }

  lemma NothingAnswered(s: Sub, p: Pub, from: u64, to: u64)
    requires Ready(s)
    ensures AnsweredUpTo(s, s, p, from, to, 0)
  {
    hide Resent, ReceiptFor;
  }

  lemma ReadyWhenAnswered(s: Sub, t: Sub, p: Pub, from: u64, to: u64, k: nat)
    requires AnsweredUpTo(s, t, p, from, to, k)
    ensures Ready(t)
  {}

  lemma WholeAnswer(s: Sub, t: Sub, p: Pub, from: u64, to: u64)
    requires PubInv(p) && from <= to && from < |p.history| < 0x1_0000_0000_0000_0000
    requires s.expected.Some? && s.expected.value >= from
    requires AnsweredUpTo(s, t, p, from, to, |Resent(p, from, to)| + 1)
    ensures t.expected.Some? && t.expected.value > ReceiptFor(p, from, to).body.to
    ensures from >= Oldest(|p.history|, p.size) ==> t.stats.unrecoverable == s.stats.unrecoverable
  {
    ResponseIsComplete(p, from, to);
    ResponseCounts(p, from, to);
    hide PubInv, Resent, ReceiptFor, Oldest;
    var ms, r, e := Resent(p, from, to), ReceiptFor(p, from, to).body, t.expected.value;
    var u := from + r.unavailable;
    forall k | u <= k <= r.to
      ensures Have(t, k)
    {
      assert ms[k - u].number == k;
    }
    assert !Have(t, e);
  }

  /** A request for `[from, to]` answered by the publisher leaves the subscriber past the end of what was asked
      for (at most ten thousand numbers), whether the ring still had the frames or not, and whatever datagrams
      and timer ticks come in between; if the ring still had them all, nothing is given up. */
  lemma AnswerClosesTheGap(s: Sub, p: Pub, from: u64, to: u64, arrivals: seq<Arrival>, delay: real)
    requires PubInv(p) && from <= to && from < |p.history| < 0x1_0000_0000_0000_0000
    requires Ready(s) && s.expected.value >= from
    requires AllWellFormed(arrivals) && TcpPart(arrivals) == Response(p, from, to)
    ensures var t := Arrived(s, arrivals, delay);
            && t.expected.Some?
            && t.expected.value > Min(Min(to, |p.history| - 1), from + REQUEST_LIMIT - 1)
            && (from >= Oldest(|p.history|, p.size) ==> t.stats.unrecoverable == s.stats.unrecoverable)
  {
    var t := Arrived(s, arrivals, delay);
    AnswerSoFar(s, p, from, to, arrivals, delay);
    ResponseIsComplete(p, from, to);
    ResponseCounts(p, from, to);
    hide PubInv, Resent, ReceiptFor, Oldest, Arrived, AnsweredUpTo, TcpPart;
    WholeAnswer(s, t, p, from, to);
  }
}
