/** Estimating a venue's clock offset as the least delay seen in a sliding window of buckets. */
module Clock {
  import opened Wrappers
  import opened Slots

  datatype State = State(buckets: seq<Option<real>>, idx: nat, start: real)

  /** Number of buckets, length of the window and the moment the estimator was made. */
  datatype Setup = Setup(n: nat, window: real, origin: real)

  predicate ValidSetup(c: Setup) { c.n > 0 && c.window > 0.0 }

  function Width(c: Setup): (w: real)
    requires ValidSetup(c)
    ensures w > 0.0
    ensures w * c.n as real == c.window
  {
    c.window / c.n as real
  }

  function Fresh(c: Setup): State { State(seq(c.n, _ => None), 0, c.origin) }

  predicate Shaped(c: Setup, s: State) { |s.buckets| == c.n && s.idx < c.n }

  /** One bucket on: the oldest is emptied and becomes the current one. */
  function Turned(s: State): State
    requires s.idx < |s.buckets|
  {
    var i := (s.idx + 1) % |s.buckets|;
    s.(buckets := s.buckets[i := None], idx := i)
  }

  function TurnedBy(s: State, k: nat): (r: State)
    requires s.idx < |s.buckets|
    ensures r.idx < |r.buckets| == |s.buckets| && r.start == s.start
  {
    if k == 0 then s else Turned(TurnedBy(s, k - 1))
  }

  function Steps(c: Setup, s: State, now: real): (k: nat)
    requires ValidSetup(c) && Shaped(c, s)
    ensures k <= c.n
  {
    var elapsed := now - s.start;
    if elapsed < Width(c) then 0
    else
      DivisionBounds(elapsed, Width(c));
      var k := (elapsed / Width(c)).Floor;
      if k <= c.n then k else c.n
  }

  lemma DivisionBounds(x: real, w: real)
    requires w > 0.0
    ensures Times((x / w).Floor as real, w) <= x < Times((x / w).Floor as real + 1.0, w)
    ensures x >= w ==> (x / w).Floor >= 1
  {
    var q := x / w;
    assert Times(q, w) == x;
    assert Times(1.0, w) == w;
    hide Times;
    ScaleBound(q.Floor as real, q, w);
    StrictScale(q, q.Floor as real + 1.0, w);
    if q.Floor < 1 {
      StrictScale(q, 1.0, w);
    }
  }

  function Times(k: real, w: real): real { k * w }

  lemma TimesSum(a: real, b: real, w: real)
    ensures Times(a + b, w) == Times(a, w) + Times(b, w)
    ensures Times(a + 1.0, w) == Times(a, w) + w
  {}

  lemma ScaleBound(a: real, b: real, w: real)
    requires a <= b && w > 0.0
    ensures Times(a, w) <= Times(b, w)
  {}

  lemma StrictScale(a: real, b: real, w: real)
    requires a < b && w > 0.0
    ensures Times(a, w) < Times(b, w)
  {}

  function Rolled(c: Setup, s: State, now: real): (r: State)
    requires ValidSetup(c) && Shaped(c, s)
    ensures Shaped(c, r)
  {
    var k := Steps(c, s, now);
    TurnedBy(s, k).(start := s.start + Times(k as real, Width(c)))
  }

  function Lesser(b: Option<real>, raw: real): Option<real> {
    if b.None? || raw < b.value then Some(raw) else b
  }

  function Observed(c: Setup, s: State, raw: real, now: real): (r: State)
    requires ValidSetup(c) && Shaped(c, s)
    ensures Shaped(c, r)
  {
    var r := Rolled(c, s, now);
    r.(buckets := r.buckets[r.idx := Lesser(r.buckets[r.idx], raw)])
  }

  /** The least value in any bucket. */
  function LeastOf(bs: seq<Option<real>>): (r: Option<real>)
    ensures r.None? <==> forall i :: 0 <= i < |bs| ==> bs[i].None?
    ensures r.Some? ==> r in bs && forall i :: 0 <= i < |bs| && bs[i].Some? ==> r.value <= bs[i].value
  {
    if bs == [] then None
    else
      var rest := LeastOf(bs[..|bs| - 1]);
      var last := bs[|bs| - 1];
      if last.None? then rest else if rest.Some? && rest.value <= last.value then rest else last
  }

  function Offset(s: State): real {
    var m := LeastOf(s.buckets);
    if m.Some? then m.value else 0.0
  }

  // ---- What the buckets stand for ----

  /** A sample and the number of turns made before it was put in its bucket. */
  datatype Sample = Sample(raw: real, at: real, epoch: nat)

  /** A run: the estimator, the turns so far and every sample. */
  datatype Trace = Trace(state: State, epoch: nat, log: seq<Sample>)

  datatype Reading = Reading(raw: real, at: real)

  function Traced(c: Setup, rs: seq<Reading>): (t: Trace)
    requires ValidSetup(c)
    ensures Shaped(c, t.state) && |t.log| == |rs|
    decreases |rs|
  {
    if rs == [] then Trace(Fresh(c), 0, [])
    else
      var t, r := Traced(c, rs[..|rs| - 1]), rs[|rs| - 1];
      var e := t.epoch + Steps(c, t.state, r.at);
      Trace(Observed(c, t.state, r.raw, r.at), e, t.log + [Sample(r.raw, r.at, e)])
  }

  predicate Live(c: Setup, epoch: nat, x: Sample) { x.epoch + c.n > epoch }

  /** The bucket of an epoch: they take turns. */
  function BucketOf(epoch: nat, n: nat): (k: nat)
    requires n > 0
    ensures k < n
  {
    epoch % n
  }

  /** Bucket `k` holds the least of the live samples whose epoch falls on it. */
  ghost predicate Holds(c: Setup, epoch: nat, log: seq<Sample>, k: nat, b: Option<real>)
    requires c.n > 0
  {
    && (forall i :: 0 <= i < |log| && Live(c, epoch, log[i]) && BucketOf(log[i].epoch, c.n) == k ==> b.Some? && b.value <= log[i].raw)
    && (b.Some? ==> exists i :: 0 <= i < |log| && Live(c, epoch, log[i]) && BucketOf(log[i].epoch, c.n) == k && log[i].raw == b.value)
  }

  ghost predicate BucketsHold(c: Setup, s: State, epoch: nat, log: seq<Sample>) {
    && ValidSetup(c) && Shaped(c, s) && s.idx == BucketOf(epoch, c.n)
    && (forall i :: 0 <= i < |log| ==> log[i].epoch <= epoch)
    && forall k :: 0 <= k < c.n ==> Holds(c, epoch, log, k, s.buckets[k])
  }

  lemma TurnHolds(c: Setup, s: State, epoch: nat, log: seq<Sample>)
    requires BucketsHold(c, s, epoch, log)
    ensures BucketsHold(c, Turned(s), epoch + 1, log)
  {
    NextSlot(epoch, c.n);
    var t := Turned(s);
    assert t.idx == BucketOf(epoch + 1, c.n);
    hide BucketOf, Holds;
    forall k | 0 <= k < c.n
      ensures Holds(c, epoch + 1, log, k, t.buckets[k])
    {
      assert Holds(c, epoch, log, k, s.buckets[k]);
      BucketTurns(c, epoch, log, k, s.buckets[k]);
    }
  }

  /** A bucket across one turn: it is emptied or keeps its value. */
  lemma BucketTurns(c: Setup, epoch: nat, log: seq<Sample>, k: nat, b: Option<real>)
    requires c.n > 0 && Holds(c, epoch, log, k, b) && forall i :: 0 <= i < |log| ==> log[i].epoch <= epoch
    ensures Holds(c, epoch + 1, log, k, if k == BucketOf(epoch + 1, c.n) then None else b)
  {
    forall i | 0 <= i < |log|
      ensures Live(c, epoch + 1, log[i]) <==> Live(c, epoch, log[i]) && BucketOf(log[i].epoch, c.n) != BucketOf(epoch + 1, c.n)
    {
      TurnKeeps(c, epoch, log[i]);
    }
    hide BucketOf, Live;
  }

  /** One turn ends the life of just those samples whose bucket it empties. */
  lemma TurnKeeps(c: Setup, epoch: nat, x: Sample)
    requires c.n > 0 && x.epoch <= epoch
    ensures Live(c, epoch + 1, x) <==> Live(c, epoch, x) && BucketOf(x.epoch, c.n) != BucketOf(epoch + 1, c.n)
  {
    if Live(c, epoch + 1, x) {
      SlotsDiffer(x.epoch, epoch + 1, c.n);
    } else {
      SameSlotNextRound(x.epoch, c.n);
      assert Live(c, epoch, x) ==> x.epoch + c.n == epoch + 1;
    }
    hide BucketOf;
  }

  lemma {:induction false} TurnsHold(c: Setup, s: State, epoch: nat, log: seq<Sample>, k: nat)
    requires BucketsHold(c, s, epoch, log)
    ensures BucketsHold(c, TurnedBy(s, k), epoch + k, log)
  {
    hide BucketsHold, Turned;
    if k > 0 {
      assert s.idx < |s.buckets| by { BucketsShaped(c, s, epoch, log); }
      TurnsHold(c, s, epoch, log, k - 1);
      TurnHolds(c, TurnedBy(s, k - 1), epoch + k - 1, log);
    } else {
      BucketsShaped(c, s, epoch, log);
    }
  }

  lemma BucketsShaped(c: Setup, s: State, epoch: nat, log: seq<Sample>)
    requires BucketsHold(c, s, epoch, log)
    ensures ValidSetup(c) && Shaped(c, s)
  {}

  lemma SampleHolds(c: Setup, s: State, epoch: nat, log: seq<Sample>, raw: real, at: real)
    requires BucketsHold(c, s, epoch, log)
    ensures BucketsHold(c, s.(buckets := s.buckets[s.idx := Lesser(s.buckets[s.idx], raw)]), epoch, log + [Sample(raw, at, epoch)])
  {
    var x := Sample(raw, at, epoch);
    var more := log + [x];
    var t := s.(buckets := s.buckets[s.idx := Lesser(s.buckets[s.idx], raw)]);
    forall k | 0 <= k < c.n
      ensures Holds(c, epoch, more, k, t.buckets[k])
    {
      assert Holds(c, epoch, log, k, s.buckets[k]);
      assert more[|log|] == x && Live(c, epoch, x);
      if t.buckets[k].Some? && t.buckets[k] == s.buckets[k] {
        var i :| 0 <= i < |log| && Live(c, epoch, log[i]) && BucketOf(log[i].epoch, c.n) == k && log[i].raw == s.buckets[k].value;
        assert more[i] == log[i];
      }
    }
  }

  lemma {:induction false} TraceHolds(c: Setup, rs: seq<Reading>)
    requires ValidSetup(c)
    ensures var t := Traced(c, rs); BucketsHold(c, t.state, t.epoch, t.log)
    decreases |rs|
  {
    if rs == [] {
    } else {
      TraceHolds(c, rs[..|rs| - 1]);
      var t, r := Traced(c, rs[..|rs| - 1]), rs[|rs| - 1];
      var k := Steps(c, t.state, r.at);
      hide BucketsHold, TurnedBy, Steps;
      TurnsHold(c, t.state, t.epoch, t.log, k);
      var turned := TurnedBy(t.state, k);
      SameBuckets(c, turned, Rolled(c, t.state, r.at), t.epoch + k, t.log);
      SampleHolds(c, Rolled(c, t.state, r.at), t.epoch + k, t.log, r.raw, r.at);
    }
  }

  lemma SameBuckets(c: Setup, s: State, r: State, epoch: nat, log: seq<Sample>)
    requires BucketsHold(c, s, epoch, log) && r.buckets == s.buckets && r.idx == s.idx
    ensures BucketsHold(c, r, epoch, log)
  {}

  /** The offset is the least of the live samples, and there is one: the last. */
  lemma {:induction false} OffsetIsLeast(c: Setup, rs: seq<Reading>)
    requires ValidSetup(c) && rs != []
    ensures var t := Traced(c, rs);
            && (forall i :: 0 <= i < |rs| && Live(c, t.epoch, t.log[i]) ==> Offset(t.state) <= t.log[i].raw)
            && (exists i :: 0 <= i < |rs| && Live(c, t.epoch, t.log[i]) && Offset(t.state) == t.log[i].raw)
  {
    var t := Traced(c, rs);
    TraceHolds(c, rs);
    var last := |rs| - 1;
    assert Live(c, t.epoch, t.log[last]);
    hide Traced;
    forall i | 0 <= i < |rs| && Live(c, t.epoch, t.log[i])
      ensures LeastOf(t.state.buckets).Some? && Offset(t.state) <= t.log[i].raw
    {
      var k := BucketOf(t.log[i].epoch, c.n);
      assert Holds(c, t.epoch, t.log, k, t.state.buckets[k]);
    }
    var k :| 0 <= k < c.n && t.state.buckets[k] == LeastOf(t.state.buckets);
    assert Holds(c, t.epoch, t.log, k, t.state.buckets[k]);
  }

  /** The corrected delay is the sample less the offset, and never negative. */
  lemma {:induction false} CorrectionIsExact(c: Setup, rs: seq<Reading>)
    requires ValidSetup(c) && rs != []
    ensures rs[|rs| - 1].raw - Offset(Traced(c, rs).state) >= 0.0
  {
    OffsetIsLeast(c, rs);
    var t := Traced(c, rs);
    assert Live(c, t.epoch, t.log[|rs| - 1]);
  }

  // ---- Time ----

  ghost predicate Ordered(c: Setup, rs: seq<Reading>) {
    && (forall i :: 0 <= i < |rs| ==> c.origin <= rs[i].at)
    && (forall i, j :: 0 <= i <= j < |rs| ==> rs[i].at <= rs[j].at)
  }

  /** The start of an epoch. */
  function StartOf(c: Setup, epoch: nat): real
    requires ValidSetup(c)
  {
    c.origin + Times(epoch as real, Width(c))
  }

  /** The estimator's own time lags behind a sample by a bucket or more. */
  predicate Behind(c: Setup, x: Sample)
    requires ValidSetup(c)
  {
    x.at >= StartOf(c, x.epoch) + Width(c)
  }

  lemma StepsInTime(c: Setup, s: State, epoch: nat, now: real)
    requires ValidSetup(c) && Shaped(c, s) && s.start == StartOf(c, epoch) <= now
    ensures var e := epoch + Steps(c, s, now);
            && Rolled(c, s, now).start == StartOf(c, e) <= now
            && (now >= StartOf(c, e) + Width(c) ==> e == epoch + c.n)
  {
    var k, w := Steps(c, s, now), Width(c);
    TimesSum(epoch as real, k as real, w);
    TimesSum(k as real, 0.0, w);
    assert Times(0.0, w) == 0.0;
    if now - s.start >= w {
      DivisionBounds(now - s.start, w);
      ScaleBound(k as real, ((now - s.start) / w).Floor as real, w);
      hide Times;
    }
  }

  lemma {:induction false} TraceInTime(c: Setup, rs: seq<Reading>)
    requires ValidSetup(c) && Ordered(c, rs)
    ensures var t := Traced(c, rs);
            && t.state.start == StartOf(c, t.epoch)
            && (rs != [] ==> t.log[|rs| - 1].at == rs[|rs| - 1].at >= t.state.start && t.log[|rs| - 1].epoch == t.epoch)
            && (forall i :: 0 <= i < |rs| ==> t.log[i].at == rs[i].at >= StartOf(c, t.log[i].epoch))
            && (rs == [] ==> t.epoch == 0)
    decreases |rs|
  {
    if rs == [] {
    } else {
      var front, r := rs[..|rs| - 1], rs[|rs| - 1];
      TraceInTime(c, front);
      var t := Traced(c, front);
      assert front != [] ==> rs[|front| - 1].at <= r.at;
      hide Steps, StartOf;
      assert t.state.start <= r.at by {
        assert StartOf(c, 0) == c.origin;
      }
      StepsInTime(c, t.state, t.epoch, r.at);
    }
  }

  lemma {:induction false} EpochsGrow(c: Setup, rs: seq<Reading>, i: nat)
    requires ValidSetup(c) && i < |rs|
    ensures Traced(c, rs).log[i].epoch <= Traced(c, rs).epoch
  {
    TraceHolds(c, rs);
  }

  /** Time between epochs. */
  lemma StartsApart(c: Setup, e: nat, f: nat)
    requires ValidSetup(c) && e <= f
    ensures StartOf(c, f) == StartOf(c, e) + Times((f - e) as real, Width(c))
    ensures f - e >= c.n ==> StartOf(c, f) >= StartOf(c, e) + c.window
    ensures f - e < c.n ==> StartOf(c, f) + Width(c) <= StartOf(c, e) + c.window
  {
    var w := Width(c);
    TimesSum(e as real, (f - e) as real, w);
    TimesSum((f - e) as real, 0.0, w);
    assert Times(c.n as real, w) == c.window;
    hide Times, Width;
    if f - e < c.n {
      Monotone((f - e) as real + 1.0, c.n as real, w);
    } else {
      Monotone(c.n as real, (f - e) as real, w);
    }
  }

  lemma Monotone(a: real, b: real, w: real)
    requires a <= b && w > 0.0
    ensures Times(a, w) <= Times(b, w)
  {
    ScaleBound(a, b, w);
  }

  /** Whatever the gaps between readings, only samples younger than the window count. */
  lemma {:induction false} SamplesAreYoung(c: Setup, rs: seq<Reading>, i: nat)
    requires ValidSetup(c) && Ordered(c, rs) && i < |rs|
    requires var t := Traced(c, rs); Live(c, t.epoch, t.log[i])
    ensures rs[|rs| - 1].at - rs[i].at < c.window
  {
    var front, r := rs[..|rs| - 1], rs[|rs| - 1];
    var t, before := Traced(c, rs), Traced(c, front);
    TraceInTime(c, rs);
    TraceInTime(c, front);
    EpochsGrow(c, rs, i);
    assert front == [] ==> before.state.start == StartOf(c, before.epoch);
    assert StartOf(c, 0) == c.origin;
    hide StartOf, Steps;
    StepsInTime(c, before.state, before.epoch, r.at);
    StartsApart(c, t.log[i].epoch, t.epoch);
    if i < |front| {
      EpochsGrow(c, front, i);
    }
  }

  /** A sample that was put in the bucket of its time counts for at least the window less one bucket. */
  lemma {:induction false} RecentSamplesCount(c: Setup, rs: seq<Reading>, i: nat)
    requires ValidSetup(c) && Ordered(c, rs) && i < |rs| && !Behind(c, Traced(c, rs).log[i])
    requires rs[|rs| - 1].at - rs[i].at <= c.window - Width(c)
    ensures var t := Traced(c, rs); Live(c, t.epoch, t.log[i])
  {
    var t := Traced(c, rs);
    TraceInTime(c, rs);
    EpochsGrow(c, rs, i);
    hide StartOf, Traced;
    StartsApart(c, t.log[i].epoch, t.epoch);
  }

  function Gap(c: Setup, rs: seq<Reading>, i: nat): real
    requires i < |rs|
  {
    rs[i].at - if i == 0 then c.origin else rs[i - 1].at
  }

  /** No reading comes later than a window after the one before it, or after the start. */
  ghost predicate NoLongGap(c: Setup, rs: seq<Reading>) {
    forall i :: 0 <= i < |rs| ==> Gap(c, rs, i) <= c.window
  }

  lemma NotBehindNext(c: Setup, t: Trace, last: real, now: real)
    requires ValidSetup(c) && Shaped(c, t.state) && t.state.start == StartOf(c, t.epoch) <= now
    requires last < t.state.start + Width(c) && now - last <= c.window
    ensures now < StartOf(c, t.epoch + Steps(c, t.state, now)) + Width(c)
  {
    StepsInTime(c, t.state, t.epoch, now);
    StartsApart(c, t.epoch, t.epoch + Steps(c, t.state, now));
    hide StartOf, Steps, Width;
  }

  lemma {:induction false} NeverBehind(c: Setup, rs: seq<Reading>)
    requires ValidSetup(c) && Ordered(c, rs) && NoLongGap(c, rs)
    ensures forall i :: 0 <= i < |rs| ==> !Behind(c, Traced(c, rs).log[i])
    decreases |rs|
  {
    if rs == [] {
    } else {
      var front, r := rs[..|rs| - 1], rs[|rs| - 1];
      assert forall i :: 0 <= i < |front| ==> Gap(c, front, i) == Gap(c, rs, i);
      NeverBehind(c, front);
      TraceInTime(c, front);
      TraceInTime(c, rs);
      var before, t := Traced(c, front), Traced(c, rs);
      assert StartOf(c, 0) == c.origin;
      hide StartOf, Steps, Observed;
      assert before.state.start <= r.at;
      assert front != [] ==> !Behind(c, before.log[|front| - 1]);
      assert Gap(c, rs, |front|) <= c.window;
      NotBehindNext(c, before, if front == [] then c.origin else front[|front| - 1].at, r.at);
      forall i | 0 <= i < |rs|
        ensures !Behind(c, t.log[i])
      {
        assert i < |front| ==> t.log[i] == before.log[i];
      }
    }
  }

  /** Without long gaps the offset is the least sample of the window: it is a sample younger than the window, and no
      greater than any sample of the window less one bucket. */
  lemma {:induction false} OffsetIsWindowMinimum(c: Setup, rs: seq<Reading>)
    requires ValidSetup(c) && Ordered(c, rs) && NoLongGap(c, rs) && rs != []
    ensures var now, offset := rs[|rs| - 1].at, Offset(Traced(c, rs).state);
            && (exists i :: 0 <= i < |rs| && now - rs[i].at < c.window && offset == rs[i].raw)
            && forall i :: 0 <= i < |rs| && now - rs[i].at <= c.window - Width(c) ==> offset <= rs[i].raw
  {
    OffsetIsLeast(c, rs);
    NeverBehind(c, rs);
    TraceLog(c, rs);
    hide Offset, Traced, Behind, Live;
    var t := Traced(c, rs);
    var i :| 0 <= i < |rs| && Live(c, t.epoch, t.log[i]) && Offset(t.state) == t.log[i].raw;
    SamplesAreYoung(c, rs, i);
    forall j | 0 <= j < |rs| && rs[|rs| - 1].at - rs[j].at <= c.window - Width(c)
      ensures Offset(t.state) <= rs[j].raw
    {
      RecentSamplesCount(c, rs, j);
    }
  }

  lemma {:induction false} TraceLog(c: Setup, rs: seq<Reading>)
    requires ValidSetup(c)
    ensures forall i :: 0 <= i < |rs| ==> Traced(c, rs).log[i].raw == rs[i].raw && Traced(c, rs).log[i].at == rs[i].at
    decreases |rs|
  {
    if rs == [] {
    } else {
      TraceLog(c, rs[..|rs| - 1]);
    }
  }

  lemma {:induction false} TraceGrows(c: Setup, rs: seq<Reading>, more: seq<Reading>)
    requires ValidSetup(c)
    ensures Traced(c, rs).log <= Traced(c, rs + more).log
    decreases |more|
  {
    if more == [] {
      assert rs + more == rs;
    } else {
      TraceGrows(c, rs, more[..|more| - 1]);
      assert (rs + more)[..|rs + more| - 1] == rs + more[..|more| - 1];
    }
  }

  /** A later time at which a sample that was put behind its time is dropped, though it is not too old. */
  function DropTime(c: Setup, x: Sample): real
    requires ValidSetup(c)
  {
    var end := StartOf(c, x.epoch) + c.window;
    if end >= x.at then end else x.at
  }

  lemma {:induction false} BehindIsDropped(c: Setup, rs: seq<Reading>, raw: real)
    requires ValidSetup(c) && Ordered(c, rs) && rs != []
    requires Behind(c, Traced(c, rs).log[|rs| - 1])
    ensures var x := Traced(c, rs).log[|rs| - 1];
            var late := DropTime(c, x);
            && x.at <= late <= x.at + c.window - Width(c)
            && !Live(c, Traced(c, rs + [Reading(raw, late)]).epoch, x)
  {
    var t := Traced(c, rs);
    var x := t.log[|rs| - 1];
    TraceInTime(c, rs);
    var r := Reading(raw, DropTime(c, x));
    assert (rs + [r])[..|rs|] == rs;
    NarrowerThanWindow(c);
    WindowPassed(c, t.state, r.at);
    hide StartOf, Width, Steps;
  }

  lemma WindowPassed(c: Setup, s: State, now: real)
    requires ValidSetup(c) && Shaped(c, s) && now >= s.start + c.window
    ensures Steps(c, s, now) == c.n
  {
    var elapsed, w := now - s.start, Width(c);
    assert Times(c.n as real, w) == c.window;
    NarrowerThanWindow(c);
    DivisionBounds(elapsed, w);
    hide Times;
    if (elapsed / w).Floor < c.n {
      Monotone((elapsed / w).Floor as real + 1.0, c.n as real, w);
    }
  }

  lemma NarrowerThanWindow(c: Setup)
    requires ValidSetup(c)
    ensures Width(c) <= c.window
  {
    assert Times(c.n as real, Width(c)) == c.window && Times(1.0, Width(c)) == Width(c);
    Monotone(1.0, c.n as real, Width(c));
  }

  lemma {:induction false} KeptUnlessBehind(c: Setup, rs: seq<Reading>)
    requires ValidSetup(c) && Ordered(c, rs) && rs != []
    ensures var x := Traced(c, rs).log[|rs| - 1];
            !Behind(c, x) <==>
            forall more: seq<Reading> :: Ordered(c, rs + more) && (rs + more)[|rs + more| - 1].at - x.at <= c.window - Width(c) ==>
              Live(c, Traced(c, rs + more).epoch, x)
  {
    var n := |rs| - 1;
    var x := Traced(c, rs).log[n];
    TraceLog(c, rs);
    hide Traced, Live, StartOf, Width;
    if Behind(c, x) {
      hide Behind;
      BehindIsDropped(c, rs, 0.0);
      var more := [Reading(0.0, DropTime(c, x))];
      hide DropTime;
      assert Ordered(c, rs + more) && (rs + more)[|rs + more| - 1] == more[0];
    } else {
      hide Behind;
      forall more: seq<Reading> | Ordered(c, rs + more) && (rs + more)[|rs + more| - 1].at - x.at <= c.window - Width(c)
        ensures Live(c, Traced(c, rs + more).epoch, x)
      {
        TraceGrows(c, rs, more);
        assert Traced(c, rs + more).log[n] == x && (rs + more)[n] == rs[n];
        RecentSamplesCount(c, rs + more, n);
      }
    }
  }

  /** Before the call one can tell: the estimator falls behind exactly when a reading comes a window and a bucket, or
      more, after the start of the current bucket. */
  lemma {:induction false} FallsBehindExactly(c: Setup, rs: seq<Reading>, r: Reading)
    requires ValidSetup(c) && Ordered(c, rs + [r])
    ensures Behind(c, Traced(c, rs + [r]).log[|rs|]) <==> r.at - Traced(c, rs).state.start >= c.window + Width(c)
  {
    assert (rs + [r])[..|rs|] == rs;
    assert forall i :: 0 <= i < |rs| ==> rs[i] == (rs + [r])[i];
    var t := Traced(c, rs);
    TraceInTime(c, rs);
    assert StartOf(c, 0) == c.origin by { assert Times(0.0, Width(c)) == 0.0; }
    assert (rs + [r])[|rs|] == r;
    assert rs != [] ==> (rs + [r])[|rs| - 1].at <= r.at;
    BehindAfter(c, t.state, t.epoch, r.at);
    hide Steps, StartOf, Observed;
    assert Traced(c, rs + [r]).log[|rs|] == Sample(r.raw, r.at, t.epoch + Steps(c, t.state, r.at));
  }

  lemma BehindAfter(c: Setup, s: State, epoch: nat, now: real)
    requires ValidSetup(c) && Shaped(c, s) && s.start == StartOf(c, epoch) <= now
    ensures now >= StartOf(c, epoch + Steps(c, s, now)) + Width(c) <==> now - s.start >= c.window + Width(c)
  {
    StepsInTime(c, s, epoch, now);
    StartsApart(c, epoch, epoch + c.n);
    assert Times(c.n as real, Width(c)) == c.window;
    if now - s.start >= c.window + Width(c) {
      WindowPassed(c, s, now);
    }
    hide StartOf, Steps, Width;
  }

  /** The newest sample will count at every later moment up to the window less one bucket exactly when it comes less
      than a window and a bucket after the start of the current bucket. */
  lemma {:induction false} KeptExactlyWhenInTime(c: Setup, rs: seq<Reading>, r: Reading)
    requires ValidSetup(c) && Ordered(c, rs + [r])
    ensures var all := rs + [r];
            var x := Traced(c, all).log[|rs|];
            r.at - Traced(c, rs).state.start < c.window + Width(c) <==>
            forall more: seq<Reading> :: Ordered(c, all + more) && (all + more)[|all + more| - 1].at - x.at <= c.window - Width(c) ==>
              Live(c, Traced(c, all + more).epoch, x)
  {
    hide Ordered, Live, Behind, Traced, Width;
    KeptUnlessBehind(c, rs + [r]);
    FallsBehindExactly(c, rs, r);
  }

  /** A first reading two windows late puts any estimator behind. */
  lemma {:induction false} LateStartFallsBehind(c: Setup, raw: real)
    requires ValidSetup(c)
    ensures var rs := [Reading(raw, c.origin + 2.0 * c.window)];
            && Ordered(c, rs) && Behind(c, Traced(c, rs).log[0])
            && exists r: Reading :: Ordered(c, rs + [r]) && r.at - rs[0].at <= c.window - Width(c) &&
                 !Live(c, Traced(c, rs + [r]).epoch, Traced(c, rs).log[0])
  {
    var r := Reading(raw, c.origin + 2.0 * c.window);
    NarrowerThanWindow(c);
    assert [] + [r] == [r];
    assert Traced(c, []).state.start == c.origin;
    hide Traced, Behind, Live, Width, Observed;
    FallsBehindExactly(c, [], r);
    var late := LateIsDropped(c, r, raw);
  }

  lemma LateIsDropped(c: Setup, r: Reading, raw: real) returns (late: Reading)
    requires ValidSetup(c) && Ordered(c, [r]) && Behind(c, Traced(c, [r]).log[0])
    ensures Ordered(c, [r] + [late]) && late.at - r.at <= c.window - Width(c)
    ensures !Live(c, Traced(c, [r] + [late]).epoch, Traced(c, [r]).log[0])
  {
    hide Traced, Behind, Live, Width, DropTime;
    TraceLog(c, [r]);
    BehindIsDropped(c, [r], raw);
    late := Reading(raw, DropTime(c, Traced(c, [r]).log[0]));
  }

  // ---- The estimator ----

  class SkewEstimator {
    const setup: Setup
    const buckets: array<Option<real>>
    var curIdx: nat
    var curStart: real
    var samples: nat
    ghost var readings: seq<Reading>

    ghost predicate Valid()
      reads this, buckets
    {
      ValidSetup(setup) && State(buckets[..], curIdx, curStart) == Traced(setup, readings).state && samples == |readings|
    }

    constructor (setup: Setup)
      requires ValidSetup(setup)
      ensures Valid() && fresh(buckets) && readings == [] && this.setup == setup
    {
      this.setup := setup;
      buckets := new Option<real>[setup.n](_ => None);
      curIdx, curStart, samples, readings := 0, setup.origin, 0, [];
    }

    method Roll(now: real)
      requires ValidSetup(setup) && Shaped(setup, State(buckets[..], curIdx, curStart))
      modifies this`curIdx, this`curStart, buckets
      ensures State(buckets[..], curIdx, curStart) == Rolled(setup, old(State(buckets[..], curIdx, curStart)), now)
    {
      ghost var was := State(buckets[..], curIdx, curStart);
      var elapsed := now - curStart;
      if elapsed < Width(setup) {
        assert Times(0.0, Width(setup)) == 0.0;
        return;
      }
      DivisionBounds(elapsed, Width(setup));
      var whole := (elapsed / Width(setup)).Floor;
      var steps := if whole <= setup.n then whole else setup.n;
      for i := 0 to steps
        invariant State(buckets[..], curIdx, curStart) == TurnedBy(was, i)
      {
        curIdx := (curIdx + 1) % setup.n;
        buckets[curIdx] := None;
      }
      curStart := curStart + Times(steps as real, Width(setup));
    }

    /** Takes a sample and gives it back corrected. */
    method Observe(raw: real, now: real) returns (corrected: real)
      requires Valid()
      modifies this, buckets
      ensures Valid() && readings == old(readings) + [Reading(raw, now)]
      ensures corrected == raw - Offset(Traced(setup, readings).state) && corrected >= 0.0
    {
      Roll(now);
      var b := buckets[curIdx];
      if b.None? || raw < b.value {
        buckets[curIdx] := Some(raw);
      }
      samples := samples + 1;
      ghost var more := readings + [Reading(raw, now)];
      assert more[..|readings|] == readings;
      readings := more;
      CorrectionIsExact(setup, readings);
      var offset := OffsetUs();
      corrected := if raw - offset > 0.0 then raw - offset else 0.0;
    }

    method OffsetUs() returns (offset: real)
      requires Valid()
      ensures offset == Offset(Traced(setup, readings).state)
    {
      var least: Option<real> := None;
      for i := 0 to buckets.Length
        invariant least == LeastOf(buckets[..i])
      {
        assert buckets[..i + 1][..i] == buckets[..i];
        if buckets[i].Some? && (least.None? || buckets[i].value < least.value) {
          least := buckets[i];
        }
      }
      assert buckets[..buckets.Length] == buckets[..];
      offset := if least.Some? then least.value else 0.0;
    }
  }
}
