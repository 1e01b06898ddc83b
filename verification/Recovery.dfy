/** Publisher, lossy datagrams, recovery channel and subscriber together: what holds in every run. */
module Recovery {
  import opened Wrappers
  import opened Bytes
  import opened Feed
  import opened Numbers
  import opened Sequences
  import opened Publishing
  import opened Subscribing

  /** `served` counts the requests answered, the subscription being the first; `down` is the recovery stream
      still under way. `snapAt` and `snaps` record when the snapshot was taken and what it held. */
  datatype Sys = Sys(pub: Pub, sub: Sub, served: nat, down: seq<Msg>, snapAt: Option<nat>, snaps: seq<Msg>)

  /** A datagram frame may arrive at any time after it was sent, any number of times, in any order, or never. */
  datatype Event =
    | PublishFrame(msgType: byte, flags: u16, body: Body)
    | FlushFrames
    | Serve(snapshot: seq<Msg>)
    | DatagramFrame(datagram: nat, index: nat, t0: real, t1: real)
    | RecoveryFrame(t0: real, t1: real)
    | Timer(now: real)

  function Init(size: nat, maxDatagram: nat): Sys {
    Sys(Pub(size, maxDatagram, [], [], []), START, 0, [], None, [])
  }

  ghost function ServeSubscription(s: Sys, snapshot: seq<Msg>): Sys {
    if IsSnapshot(snapshot, ViewOf(s.pub.history)) then
      s.(served := 1, snapAt := Some(|s.pub.history|), snaps := snapshot,
         down := s.down + snapshot + [SnapshotEnd(|snapshot|, |s.pub.history|)])
    else s
  }

  function ServeRequest(s: Sys): Sys {
    if 1 <= s.served <= |s.sub.requests| then
      var r := s.sub.requests[s.served - 1];
      if r.0 < 0x1_0000_0000_0000_0000 && r.1 < 0x1_0000_0000_0000_0000 then
        s.(served := s.served + 1, down := s.down + Response(s.pub, r.0, r.1))
      else s
    else s
  }

  /** One step of the system; an event that is not possible in `s` changes nothing. */
  ghost function Step(s: Sys, e: Event, delay: real): Sys {
    match e
    case PublishFrame(t, f, b) =>
      if Publishable(Msg(t, f, |s.pub.history|, b)) then s.(pub := Published(s.pub, t, f, b)) else s
    case FlushFrames => s.(pub := Flushed(s.pub))
    case Serve(snapshot) => if s.served == 0 then ServeSubscription(s, snapshot) else ServeRequest(s)
    case DatagramFrame(d, i, t0, t1) =>
      if d < |s.pub.sent| && i < |s.pub.sent[d]| then s.(sub := Observed(s.sub, s.pub.sent[d][i], false, t0, t1, delay)) else s
    case RecoveryFrame(t0, t1) =>
      if s.down != [] && WellFormed(s.down[0]) then s.(sub := OnTcp(s.sub, s.down[0], t0, t1, delay), down := s.down[1..]) else s
    case Timer(now) => s.(sub := OnTimer(s.sub, now, delay))
  }

  ghost function Run(s: Sys, es: seq<Event>, delay: real): Sys
    decreases |es|
  {
    if es == [] then s else Step(Run(s, es[..|es| - 1], delay), es[|es| - 1], delay)
  }

  // ---- The invariant ----

  ghost predicate Genuine(h: seq<Msg>, m: Msg) {
    m.number < |h| && h[m.number] == m
  }

  ghost predicate Holds(log: seq<Msg>, k: nat) {
    exists m :: m in log && m.number == k
  }

  /** The numbers below this one have been overwritten in the ring. */
  function Gone(p: Pub): nat {
    Oldest(|p.history|, p.size)
  }

  /** A log of frames with increasing numbers from `[n, e)`, each as published, `u` numbers short of all of
      them; the numbers missing from it are below `gone`. */
  ghost predicate LogInv(h: seq<Msg>, gone: nat, log: seq<Msg>, n: nat, e: nat, u: nat) {
    && n <= e <= |h| && |log| + u == e - n
    && (forall i :: 0 <= i < |log| ==> n <= log[i].number < e && Genuine(h, log[i]))
    && (forall i, j :: 0 <= i < j < |log| ==> log[i].number < log[j].number)
    && (u == 0 ==> log == h[n..e])
    && (forall k :: n <= k < e && k >= gone ==> Holds(log, k))
  }

  ghost predicate BufferInv(h: seq<Msg>, s: Sub) {
    && (forall k :: k in s.pending ==> s.pending[k].number == k && Genuine(h, s.pending[k]))
    && (forall r :: r in s.requests ==> r.0 <= r.1 < |h|)
  }

  ghost predicate LiveInv(h: seq<Msg>, gone: nat, s: Sub, n: nat, snaps: seq<Msg>) {
    && BufferInv(h, s)
    && s.expected.Some? && snaps <= s.out && s.stats.delivered == |s.out| - |snaps|
    && LogInv(h, gone, s.out[|snaps|..], n, s.expected.value, s.stats.unrecoverable)
  }

  /** What the recovery stream carries after the snapshot: data as published, and receipts. */
  ghost predicate UnderWay(h: seq<Msg>, gone: nat, m: Msg) {
    && !IsSnapshotFlagged(m)
    && (m.msgType != MSG_ACK ==> Genuine(h, m))
    && (m.body.Receipt? ==> m.body.oldest <= gone)
  }

  ghost predicate WaitingInv(s: Sys) {
    && s.sub.expected == None && s.sub.requests == [] && s.sub.stats.unrecoverable == 0 && s.sub.stats.delivered == 0
    && BufferInv(s.pub.history, s.sub)
    && (s.served == 0 ==> s.down == [] && s.sub.out == [] && s.snaps == [] && s.snapAt == None)
    && (s.served > 0 ==>
          && s.served == 1 && s.sub.out <= s.snaps
          && s.snapAt.Some? && s.down == s.snaps[|s.sub.out|..] + [SnapshotEnd(|s.snaps|, s.snapAt.value)])
  }

  ghost predicate Inv(s: Sys) {
    && PubInv(s.pub)
    && (s.snapAt.Some? ==> s.snapAt.value <= |s.pub.history| && IsSnapshot(s.snaps, ViewOf(s.pub.history[..s.snapAt.value])))
    && (s.sub.expected == None ==> WaitingInv(s))
    && (s.sub.expected.Some? ==>
          && s.served > 0 && s.snapAt.Some?
          && LiveInv(s.pub.history, Gone(s.pub), s.sub, s.snapAt.value, s.snaps)
          && s.sub.expected.value !in s.sub.pending
          && forall m :: m in s.down ==> UnderWay(s.pub.history, Gone(s.pub), m))
  }

  // ---- The publisher's steps ----

  lemma LogGrows(h: seq<Msg>, h': seq<Msg>, gone: nat, gone': nat, log: seq<Msg>, n: nat, e: nat, u: nat)
    requires LogInv(h, gone, log, n, e, u) && h <= h' && gone <= gone'
    ensures LogInv(h', gone', log, n, e, u)
  {
    assert h[n..e] == h'[n..e];
  }

  /** Nothing said about the past is undone by publishing more. */
  lemma HistoryGrows(s: Sys, p: Pub)
    requires Inv(s) && PubInv(p) && s.pub.history <= p.history && p.size == s.pub.size
    ensures Inv(s.(pub := p))
  {
    hide PubInv, IsSnapshot, Publishable;
    var h, h' := s.pub.history, p.history;
    if s.snapAt.Some? {
      assert h[..s.snapAt.value] == h'[..s.snapAt.value];
    }
    if s.sub.expected.Some? {
      LogGrows(h, h', Gone(s.pub), Gone(p), s.sub.out[|s.snaps|..], s.snapAt.value, s.sub.expected.value, s.sub.stats.unrecoverable);
    }
  }

  lemma PublisherStep(s: Sys, e: Event, delay: real)
    requires Inv(s) && (e.PublishFrame? || e.FlushFrames?)
    ensures Inv(Step(s, e, delay))
  {
    hide Inv, PubInv, Publishable;
    InvPub(s);
    match e
    case PublishFrame(t, f, b) =>
      if Publishable(Msg(t, f, |s.pub.history|, b)) {
        PublishKeepsInv(s.pub, t, f, b);
        HistoryGrows(s, Published(s.pub, t, f, b));
      }
    case FlushFrames =>
      FlushKeepsInv(s.pub);
      HistoryGrows(s, Flushed(s.pub));
  }

  lemma InvPub(s: Sys)
    requires Inv(s)
    ensures PubInv(s.pub)
  {}

  lemma ResponseUnderWay(p: Pub, from: u64, to: u64)
    requires PubInv(p)
    ensures forall m :: m in Response(p, from, to) ==> UnderWay(p.history, Gone(p), m)
  {
    var ms := Resent(p, from, to);
    ResentByCollecting(p, from, to);
    assert forall m :: m in ms ==> m in p.history;
    forall m | m in ms
      ensures UnderWay(p.history, Gone(p), m)
    {
      PublishedUnderWay(p, m);
    }
    assert ReceiptFor(p, from, to).body.oldest == Gone(p);
    hide LastServed, Resent, Publishable, Wrap, PubInv;
  }

  lemma PublishedUnderWay(p: Pub, m: Msg)
    requires PubInv(p) && m in p.history
    ensures UnderWay(p.history, Gone(p), m)
  {
    var i :| 0 <= i < |p.history| && p.history[i] == m;
    assert Publishable(p.history[i]);
  }

  lemma ServeStep(s: Sys, snapshot: seq<Msg>, delay: real)
    requires Inv(s)
    ensures Inv(Step(s, Serve(snapshot), delay))
  {
    hide PubInv, IsSnapshot, LogInv, BufferInv, Response, UnderWay;
    var h := s.pub.history;
    if s.served == 0 {
      assert h[..|h|] == h;
      assert s.sub.expected == None;
      assert snapshot[0..] == snapshot && [] + snapshot == snapshot;
    } else if 1 <= s.served <= |s.sub.requests| {
      var r := s.sub.requests[s.served - 1];
      if r.0 < 0x1_0000_0000_0000_0000 && r.1 < 0x1_0000_0000_0000_0000 {
        ResponseUnderWay(s.pub, r.0, r.1);
      }
    }
  }

  // ---- The subscriber's steps ----

  lemma DeliverKeeps(h: seq<Msg>, gone: nat, s: Sub, m: Msg, n: nat, snaps: seq<Msg>)
    requires LiveInv(h, gone, s, n, snaps) && Genuine(h, m) && m.number == s.expected.value
    ensures LiveInv(h, gone, Delivered(s, m).(expected := Some(m.number + 1)), n, snaps)
  {
    hide BufferInv;
    var t := Delivered(s, m).(expected := Some(m.number + 1));
    assert BufferInv(h, t) by { BufferDepends(h, s, t); }
    var log := s.out[|snaps|..];
    assert t.out[|snaps|..] == log + [m];
    LongerHolds(log, m);
    if s.stats.unrecoverable == 0 {
      assert h[n..m.number + 1] == h[n..m.number] + [h[m.number]];
    }
  }

  lemma LongerHolds(log: seq<Msg>, m: Msg)
    ensures forall k :: Holds(log, k) || k == m.number ==> Holds(log + [m], k)
  {
    forall k | Holds(log, k) || k == m.number
      ensures Holds(log + [m], k)
    {
      if Holds(log, k) {
        var x :| x in log && x.number == k;
        assert x in log + [m];
      } else {
        assert (log + [m])[|log|] == m;
      }
    }
  }

  lemma BufferDepends(h: seq<Msg>, s: Sub, t: Sub)
    requires BufferInv(h, s) && t.pending == s.pending && t.requests == s.requests
    ensures BufferInv(h, t)
  {}

  lemma {:induction false} DrainKeeps(h: seq<Msg>, gone: nat, s: Sub, n: nat, snaps: seq<Msg>)
    requires LiveInv(h, gone, s, n, snaps)
    ensures LiveInv(h, gone, Drained(s), n, snaps)
    decreases s.pending.Keys
  {
    hide LogInv;
    var e := s.expected.value;
    if e in s.pending {
      var t := s.(gapSeen := s.gapSeen - {e}, pending := s.pending - {e});
      DeliverKeeps(h, gone, t, s.pending[e], n, snaps);
      DrainKeeps(h, gone, Delivered(t, s.pending[e]).(expected := Some(e + 1)), n, snaps);
    }
  }

  lemma {:induction false} RequestsKeep(h: seq<Msg>, s: Sub, rs: seq<Run>, now: real, delay: real)
    requires BufferInv(h, s) && forall r :: r in rs ==> r.0 <= r.1 < |h|
    ensures var t := ConsideredAll(s, rs, now, delay);
            && BufferInv(h, t) && t.stats.delivered == s.stats.delivered && t.stats.unrecoverable == s.stats.unrecoverable
    decreases |rs|
  {
    if rs == [] {
    } else {
      var c := Considered(s, rs[0], now, delay);
      assert forall r :: r in c.requests ==> r in s.requests || r == rs[0];
      RequestsKeep(h, c, rs[1..], now, delay);
    }
  }

  lemma RequestedKeeps(h: seq<Msg>, gone: nat, s: Sub, upto: nat, now: real, delay: real, n: nat, snaps: seq<Msg>)
    requires LiveInv(h, gone, s, n, snaps) && upto <= |h|
    ensures var t := Requested(s, upto, now, delay);
            LiveInv(h, gone, t, n, snaps) && t.expected == s.expected && t.pending == s.pending
  {
    hide LogInv, BufferInv;
    RunsAreTheMaximalGaps(s.pending.Keys, s.expected.value, upto);
    RequestsKeep(h, s, MissingRuns(s.pending.Keys, s.expected.value, upto), now, delay);
  }

  lemma ObservedKeeps(h: seq<Msg>, gone: nat, s: Sub, m: Msg, via: bool, t0: real, t1: real, delay: real, n: nat, snaps: seq<Msg>)
    requires LiveInv(h, gone, s, n, snaps) && s.expected.value !in s.pending && Genuine(h, m)
    ensures var t := Observed(s, m, via, t0, t1, delay);
            LiveInv(h, gone, t, n, snaps) && t.expected.value !in t.pending
  {
    hide LogInv, Requested, Drained;
    if m.number == s.expected.value {
      DeliverKeeps(h, gone, s, m, n, snaps);
      DrainKeeps(h, gone, Delivered(s, m).(expected := Some(m.number + 1)), n, snaps);
    } else if m.number > s.expected.value {
      ParkedKeeps(h, gone, s, m, via, t0, n, snaps);
      hide LiveInv;
      RequestedKeeps(h, gone, Parked(s, m, via, t0), m.number, t1, delay, n, snaps);
    }
  }

  lemma ParkedKeeps(h: seq<Msg>, gone: nat, s: Sub, m: Msg, via: bool, now: real, n: nat, snaps: seq<Msg>)
    requires LiveInv(h, gone, s, n, snaps) && s.expected.value !in s.pending && Genuine(h, m) && m.number > s.expected.value
    ensures var p := Parked(s, m, via, now);
            LiveInv(h, gone, p, n, snaps) && p.expected.value !in p.pending
  {
    hide LogInv;
  }

  lemma BufferedKeeps(h: seq<Msg>, s: Sub, m: Msg)
    requires BufferInv(h, s) && Genuine(h, m)
    ensures BufferInv(h, Buffered(s, m))
  {}

  lemma SkippedKeeps(h: seq<Msg>, gone: nat, s: Sub, oldest: nat, n: nat, snaps: seq<Msg>)
    requires LiveInv(h, gone, s, n, snaps) && s.expected.value < oldest <= gone <= |h|
    ensures LiveInv(h, gone, Skipped(s, oldest), n, snaps)
  {
    var t := s.(expected := Some(oldest),
                gapSeen := map g | g in s.gapSeen && g >= oldest :: s.gapSeen[g],
                stats := s.stats.(unrecoverable := s.stats.unrecoverable + (oldest - s.expected.value)));
    DrainKeeps(h, gone, t, n, snaps);
  }

  lemma TimerStep(s: Sys, now: real, delay: real)
    requires Inv(s)
    ensures Inv(Step(s, Timer(now), delay))
  {
    hide PubInv, IsSnapshot, LogInv, Requested, UnderWay;
    if s.sub.expected.Some? && s.sub.pending != map[] {
      var upto := Greatest(s.sub.pending.Keys);
      RequestedKeeps(s.pub.history, Gone(s.pub), s.sub, upto, now, delay, s.snapAt.value, s.snaps);
    }
  }

  lemma {:induction false} InConcat(ds: seq<seq<Msg>>, d: nat, m: Msg)
    requires d < |ds| && m in ds[d]
    ensures m in Concat(ds)
    decreases |ds|
  {
    if d == 0 {
    } else {
      InConcat(ds[1..], d - 1, m);
    }
  }

  lemma SentIsGenuine(p: Pub, d: nat, i: nat)
    requires PubInv(p) && d < |p.sent| && i < |p.sent[d]|
    ensures Genuine(p.history, p.sent[d][i])
  {
    var m := p.sent[d][i];
    InConcat(p.sent, d, m);
    assert m in p.history;
  }

  lemma DatagramStep(s: Sys, d: nat, i: nat, t0: real, t1: real, delay: real)
    requires Inv(s)
    ensures Inv(Step(s, DatagramFrame(d, i, t0, t1), delay))
  {
    if d < |s.pub.sent| && i < |s.pub.sent[d]| {
      SentIsGenuine(s.pub, d, i);
      hide PubInv, IsSnapshot, LogInv, LiveInv, BufferInv, Buffered, Requested, UnderWay, Genuine, Observed;
      var m := s.pub.sent[d][i];
      if s.sub.expected == None {
        BufferedStep(s, m, false, t0, t1, delay);
      } else {
        ObservedKeeps(s.pub.history, Gone(s.pub), s.sub, m, false, t0, t1, delay, s.snapAt.value, s.snaps);
      }
    }
  }

  lemma BufferedStep(s: Sys, m: Msg, via: bool, t0: real, t1: real, delay: real)
    requires Inv(s) && s.sub.expected == None && Genuine(s.pub.history, m)
    ensures Inv(s.(sub := Observed(s.sub, m, via, t0, t1, delay)))
  {
    hide PubInv, IsSnapshot;
    BufferedKeeps(s.pub.history, s.sub, m);
  }

  /** A value of the snapshot is handed on. */
  lemma SnapshotValueStep(s: Sys, t0: real, t1: real, delay: real)
    requires Inv(s) && s.sub.expected == None && s.down != [] && |s.sub.out| < |s.snaps|
    ensures WellFormed(s.down[0])
    ensures Inv(Step(s, RecoveryFrame(t0, t1), delay))
  {
    var m, k := s.down[0], |s.sub.out|;
    assert m == s.snaps[k];
    SnapshotMember(s.snaps, ViewOf(s.pub.history[..s.snapAt.value]), k);
    hide PubInv, IsSnapshot, BufferInv, Response;
    var t := Step(s, RecoveryFrame(t0, t1), delay);
    assert t.sub == s.sub.(out := s.sub.out + [m], stats := s.sub.stats.(snapshotFrames := s.sub.stats.snapshotFrames + 1));
    assert t.sub.out == s.snaps[..k + 1];
    assert t.down == s.snaps[k + 1..] + [SnapshotEnd(|s.snaps|, s.snapAt.value)];
    BufferDepends(s.pub.history, s.sub, t.sub);
  }

  lemma SnapshotMember(ms: seq<Msg>, v: View, k: nat)
    requires IsSnapshot(ms, v) && k < |ms|
    ensures IsSnapshotFlagged(ms[k]) && ms[k].msgType != MSG_SNAPSHOT
  {
    assert ms[k] in ms;
  }

  /** The end of the snapshot starts the ordered log. */
  lemma SnapshotEndStep(s: Sys, t0: real, t1: real, delay: real)
    requires Inv(s) && s.sub.expected == None && s.down != [] && |s.sub.out| == |s.snaps|
    ensures WellFormed(s.down[0])
    ensures Inv(Step(s, RecoveryFrame(t0, t1), delay))
  {
    hide PubInv, IsSnapshot, BufferInv, LogInv, Requested, Begun, Response;
    var n := s.snapAt.value;
    assert s.down[0] == SnapshotEnd(|s.snaps|, n) && s.sub.out == s.snaps && s.down[1..] == [];
    BeginKeeps(s.pub.history, Gone(s.pub), s.sub, n, s.snaps);
    var b := Begun(s.sub, n);
    if b.pending != map[] {
      RequestedKeeps(s.pub.history, Gone(s.pub), b, LeastPublished(s.pub.history, b), t1, delay, n, s.snaps);
    }
  }

  ghost function LeastPublished(h: seq<Msg>, s: Sub): (k: nat)
    requires BufferInv(h, s) && s.pending != map[]
    ensures k == Least(s.pending.Keys) && k <= |h|
  {
    var k := Least(s.pending.Keys);
    assert Genuine(h, s.pending[k]);
    k
  }

  lemma SnapshotStep(s: Sys, t0: real, t1: real, delay: real)
    requires Inv(s) && s.sub.expected == None && s.down != []
    ensures WellFormed(s.down[0])
    ensures Inv(Step(s, RecoveryFrame(t0, t1), delay))
  {
    if |s.sub.out| < |s.snaps| {
      SnapshotValueStep(s, t0, t1, delay);
    } else {
      SnapshotEndStep(s, t0, t1, delay);
    }
  }

  lemma BeginKeeps(h: seq<Msg>, gone: nat, s: Sub, n: nat, snaps: seq<Msg>)
    requires BufferInv(h, s) && n <= |h| && s.out == snaps && s.stats.unrecoverable == 0 && s.stats.delivered == 0
    ensures LiveInv(h, gone, Begun(s, n), n, snaps) && BufferInv(h, Begun(s, n))
    ensures Begun(s, n).expected.value !in Begun(s, n).pending
  {
    var stale := set k | k in s.pending && k < n;
    var t := s.(expected := Some(n), pending := s.pending - stale, stats := s.stats.(discarded := s.stats.discarded + |stale|));
    assert LogInv(h, gone, [], n, n, 0);
    assert t.out[|snaps|..] == [];
    DrainKeeps(h, gone, t, n, snaps);
  }

  lemma LiveStep(s: Sys, t0: real, t1: real, delay: real)
    requires Inv(s) && s.sub.expected.Some? && s.down != []
    ensures WellFormed(s.down[0])
    ensures Inv(Step(s, RecoveryFrame(t0, t1), delay))
  {
    hide PubInv, IsSnapshot, LogInv, Requested, Drained, Observed;
    var m, n, h := s.down[0], s.snapAt.value, s.pub.history;
    assert UnderWay(h, Gone(s.pub), m);
    if m.msgType == MSG_ACK {
      if m.body.Receipt? {
        AcknowledgedKeeps(h, Gone(s.pub), s.sub, m.body, n, s.snaps);
      }
    } else {
      ObservedKeeps(h, Gone(s.pub), s.sub, m, true, t0, t1, delay, n, s.snaps);
    }
  }

  lemma AcknowledgedKeeps(h: seq<Msg>, gone: nat, s: Sub, r: Body, n: nat, snaps: seq<Msg>)
    requires LiveInv(h, gone, s, n, snaps) && s.expected.value !in s.pending && r.Receipt? && r.oldest <= gone <= |h|
    ensures LiveInv(h, gone, Acknowledged(s, r), n, snaps)
    ensures Acknowledged(s, r).expected.value !in Acknowledged(s, r).pending
  {
    hide LogInv;
    var t := s.(outstanding := s.outstanding - {(r.from, r.to)},
                stats := s.stats.(retransFrames := s.stats.retransFrames + r.sent));
    if r.unavailable > 0 && s.expected.value < r.oldest {
      SkippedKeeps(h, gone, t, r.oldest, n, snaps);
    }
  }

  lemma StepKeepsInv(s: Sys, e: Event, delay: real)
    requires Inv(s)
    ensures Inv(Step(s, e, delay))
  {
    hide Inv, Observed, OnTcp, OnTimer, Published;
    match e
    case PublishFrame(_, _, _) => PublisherStep(s, e, delay);
    case FlushFrames => PublisherStep(s, e, delay);
    case Serve(snapshot) => ServeStep(s, snapshot, delay);
    case DatagramFrame(d, i, t0, t1) => DatagramStep(s, d, i, t0, t1, delay);
    case RecoveryFrame(t0, t1) =>
      if s.down != [] {
        if s.sub.expected == None {
          SnapshotStep(s, t0, t1, delay);
        } else {
          LiveStep(s, t0, t1, delay);
        }
      }
    case Timer(now) => TimerStep(s, now, delay);
  }

  lemma InitInv(size: nat, maxDatagram: nat)
    requires size > 0
    ensures Inv(Init(size, maxDatagram))
  {}

  lemma {:induction false} RunKeepsInv(size: nat, maxDatagram: nat, es: seq<Event>, delay: real)
    requires size > 0
    ensures Inv(Run(Init(size, maxDatagram), es, delay))
    decreases |es|
  {
    hide Inv, Step, Init;
    if es == [] {
      InitInv(size, maxDatagram);
    } else {
      RunKeepsInv(size, maxDatagram, es[..|es| - 1], delay);
      StepKeepsInv(Run(Init(size, maxDatagram), es[..|es| - 1], delay), es[|es| - 1], delay);
    }
  }

  // ---- What every run gives the consumer ----

  /** In every run, whatever is lost, repeated or reordered: after the snapshot the consumer gets frames with
      strictly increasing numbers, each exactly as published; frames delivered and numbers given up add up to
      the numbers passed; and when none was given up the log is the published history without a gap. */
  lemma DeliveryIsExact(size: nat, maxDatagram: nat, es: seq<Event>, delay: real)
    requires size > 0
    ensures var s := Run(Init(size, maxDatagram), es, delay);
            s.sub.expected.Some? ==>
              var n, e, h := s.snapAt, s.sub.expected.value, s.pub.history;
              && n.Some? && n.value <= e <= |h| && s.snaps <= s.sub.out
              && var log := s.sub.out[|s.snaps|..];
              && |log| == s.sub.stats.delivered
              && s.sub.stats.delivered + s.sub.stats.unrecoverable == e - n.value
              && (forall i :: 0 <= i < |log| ==> n.value <= log[i].number < e && log[i] == h[log[i].number])
              && (forall i, j :: 0 <= i < j < |log| ==> log[i].number < log[j].number)
              && (s.sub.stats.unrecoverable == 0 ==> log == h[n.value..e])
  {
    hide PubInv, IsSnapshot, BufferInv, WaitingInv, Step, Run;
    RunKeepsInv(size, maxDatagram, es, delay);
  }

  /** In every run: a number passed over without its frame had been overwritten in the publisher's ring, so as
      long as the ring has held the whole history nothing is given up. */
  lemma OnlyOverwrittenFramesAreGivenUp(size: nat, maxDatagram: nat, es: seq<Event>, delay: real)
    requires size > 0
    ensures var s := Run(Init(size, maxDatagram), es, delay);
            s.sub.expected.Some? ==>
              && s.snapAt.Some? && |s.snaps| <= |s.sub.out|
              && (forall k :: s.snapAt.value <= k < s.sub.expected.value && k + size >= |s.pub.history| ==>
                                Holds(s.sub.out[|s.snaps|..], k))
              && (|s.pub.history| <= size ==> s.sub.stats.unrecoverable == 0)
  {
    hide PubInv, IsSnapshot, BufferInv, WaitingInv, Step, Holds;
    RunKeepsInv(size, maxDatagram, es, delay);
    var s := Run(Init(size, maxDatagram), es, delay);
    RunKeepsSize(size, maxDatagram, es, delay);
    if s.sub.expected.Some? && |s.pub.history| <= size {
      AllHeld(s.sub.out[|s.snaps|..], s.snapAt.value, s.sub.expected.value);
    }
  }

  /** Increasing numbers from `[n, e)` among which every one of them occurs are as many as there are. */
  lemma {:induction false} AllHeld(log: seq<Msg>, n: nat, e: nat)
    requires n <= e
    requires forall i :: 0 <= i < |log| ==> n <= log[i].number < e
    requires forall i, j :: 0 <= i < j < |log| ==> log[i].number < log[j].number
    requires forall k :: n <= k < e ==> Holds(log, k)
    ensures |log| >= e - n
    decreases e - n
  {
    if n == e {
    } else {
      assert Holds(log, e - 1);
      var i :| 0 <= i < |log| && log[i].number == e - 1;
      var front := log[..i];
      forall k | n <= k < e - 1
        ensures Holds(front, k)
      {
        assert Holds(log, k);
        var j :| 0 <= j < |log| && log[j].number == k;
        assert j < i && front[j] == log[j];
      }
      AllHeld(front, n, e - 1);
    }
  }

  lemma {:induction false} RunKeepsSize(size: nat, maxDatagram: nat, es: seq<Event>, delay: real)
    ensures Run(Init(size, maxDatagram), es, delay).pub.size == size
    decreases |es|
  {
    hide IsSnapshot, Observed, OnTcp, OnTimer;
    if es == [] {
    } else {
      RunKeepsSize(size, maxDatagram, es[..|es| - 1], delay);
    }
  }

  /** In every run in which nothing was given up, the snapshot overlaid with the delivered frames is the
      publisher's table of latest values after exactly the frames passed, whenever the snapshot was taken. */
  lemma ViewIsCurrent(size: nat, maxDatagram: nat, es: seq<Event>, delay: real)
    requires size > 0
    ensures var s := Run(Init(size, maxDatagram), es, delay);
            s.sub.expected.Some? && s.sub.stats.unrecoverable == 0 ==>
              && s.sub.expected.value <= |s.pub.history|
              && ViewOf(s.sub.out) == ViewOf(s.pub.history[..s.sub.expected.value])
  {
    hide PubInv, BufferInv, WaitingInv, Step, Run, ViewOf;
    RunKeepsInv(size, maxDatagram, es, delay);
    var s := Run(Init(size, maxDatagram), es, delay);
    if s.sub.expected.Some? && s.sub.stats.unrecoverable == 0 {
      var n, e, h := s.snapAt.value, s.sub.expected.value, s.pub.history;
      ViewsAgree(s.snaps, h[..n], h[n..e]);
      assert h[..n] + h[n..e] == h[..e];
      assert s.sub.out == s.snaps + s.sub.out[|s.snaps|..];
    }
  }
}
