/** Which frames of the bus reach a subscriber: those its filter of the moment lets through, and no others. */
module GatewayFilter {
  import opened Wrappers
  import opened Bytes
  import opened Feed
  import opened Gateway

  /** A frame without a key, any frame when there is no filter, and else the keys of the filter. */
  predicate LetsThrough(symbols: Option<set<Key>>, msgType: byte, body: Body) {
    var k := KeyOf(msgType, body);
    k == None || symbols == None || k.value in symbols.value
  }

  /** A value of the same key waits already, and takes the new one in its place. */
  predicate Waits(q: Queue, msgType: byte, body: Body) {
    var k := KeyOf(msgType, body);
    q.conflate && k.Some? && k.value in q.pending
  }

  /** An offer is accepted exactly when the subscriber is open and its filter lets the frame through; only a full queue
      drops, and only one; and it closes the subscriber exactly when that is a drop too many. */
  lemma OfferAccepts(q: Queue, msgType: byte, flags: u16, body: Body, limits: Limits)
    ensures var t := Offered(q, msgType, flags, body, limits);
            var accepts := !q.closing && LetsThrough(q.symbols, msgType, body);
            var drops := accepts && !Waits(q, msgType, body) && (if q.conflate then |q.keyQueue| else |q.queue|) >= limits.clientQueue;
            && (!accepts ==> t == q)
            && (accepts ==> t.log.accepted == q.log.accepted + [Msg(msgType, flags, q.outSeq, body)])
            && t.dropped == q.dropped + (if drops then 1 else 0)
            && (t.closing <==> q.closing || (drops && t.dropped > limits.dropLimit))
            && t.symbols == q.symbols && t.conflate == q.conflate && t.log.wire == q.log.wire
  {
    hide KeyOf;
  }

  // ---- Every run ----

  /** The filter and the mode asked for last. */
  function FilterInForce(es: seq<Event>): Option<set<Key>> {
    if es == [] then None
    else if es[|es| - 1].Filter? then es[|es| - 1].symbols
    else FilterInForce(es[..|es| - 1])
  }

  function ModeInForce(es: seq<Event>): bool {
    if es == [] then false else if es[|es| - 1].Mode? then es[|es| - 1].conflate else ModeInForce(es[..|es| - 1])
  }

  /** The frame at `j` found the subscriber open and its filter letting it through. */
  ghost predicate ChosenAt(es: seq<Event>, limits: Limits, j: nat, m: Msg) {
    && j < |es| && es[j].Bus? && (m.msgType, m.flags, m.body) == (es[j].msgType, es[j].flags, es[j].body)
    && !Run(es[..j], limits).closing && LetsThrough(FilterInForce(es[..j]), m.msgType, m.body)
  }

  /** The frames of the bus that were chosen since the mode last changed. */
  ghost function Chosen(es: seq<Event>, limits: Limits): seq<Msg> {
    if es == [] then []
    else
      var n := |es| - 1;
      var front := Chosen(es[..n], limits);
      match es[n]
      case Mode(c) => if c != ModeInForce(es[..n]) then [] else front
      case Bus(t, f, b) =>
        if !Run(es[..n], limits).closing && LetsThrough(FilterInForce(es[..n]), t, b) then front + [Msg(t, f, 0, b)] else front
      case _ => front
  }

  ghost predicate SameFrames(a: seq<Msg>, b: seq<Msg>) {
    |a| == |b| && forall i :: 0 <= i < |a| ==> SameFrame(a[i], b[i])
  }

  lemma OtherSteps(q: Queue, e: Event, limits: Limits)
    ensures var t := Step(q, e, limits);
            && (!e.Filter? ==> t.symbols == q.symbols) && (e.Filter? ==> t.symbols == e.symbols)
            && (!e.Mode? ==> t.conflate == q.conflate) && (e.Mode? ==> t.conflate == e.conflate)
            && (e.Move? || e.Filter? || e.Broken? || (e.Mode? && e.conflate == q.conflate) ==> t.log.accepted == q.log.accepted)
            && (e.Mode? && e.conflate != q.conflate ==> t.log.accepted == [])
  {
    hide KeyOf;
  }

  /** In every run: filter and mode are the ones asked for last, and what was accepted since the mode last changed is
      exactly what the filter of each moment let through while the subscriber was open, in order. */
  lemma {:induction false} AcceptedAreChosen(es: seq<Event>, limits: Limits)
    ensures var q := Run(es, limits);
            && q.symbols == FilterInForce(es) && q.conflate == ModeInForce(es)
            && SameFrames(q.log.accepted, Chosen(es, limits))
    decreases |es|
  {
    hide Step, LetsThrough;
    if es == [] {
    } else {
      var q, e := Run(es[..|es| - 1], limits), es[|es| - 1];
      AcceptedAreChosen(es[..|es| - 1], limits);
      OtherSteps(q, e, limits);
      if e.Bus? {
        OfferAccepts(q, e.msgType, e.flags, e.body, limits);
        assert Step(q, e, limits) == Offered(q, e.msgType, e.flags, e.body, limits) by { IsOffer(q, e, limits); }
        hide Offered, Waits;
      }
    }
  }

  lemma IsOffer(q: Queue, e: Event, limits: Limits)
    requires e.Bus?
    ensures Step(q, e, limits) == Offered(q, e.msgType, e.flags, e.body, limits)
  {}

  lemma {:induction false} ChosenHasMoment(es: seq<Event>, limits: Limits, i: nat) returns (j: nat)
    requires i < |Chosen(es, limits)|
    ensures ChosenAt(es, limits, j, Chosen(es, limits)[i])
    decreases |es|
  {
    hide Run, LetsThrough, FilterInForce;
    var n := |es| - 1;
    if i < |Chosen(es[..n], limits)| && Chosen(es[..n], limits) <= Chosen(es, limits) {
      j := ChosenHasMoment(es[..n], limits, i);
      assert es[..n][..j] == es[..j] && es[..n][j] == es[j];
    } else {
      j := n;
    }
  }

  // ---- What is on its way was accepted ----

  ghost predicate IsAccepted(q: Queue, m: Msg) {
    exists i :: 0 <= i < |q.log.accepted| && SameFrame(q.log.accepted[i], m)
  }

  /** Every frame passed on or waiting is an accepted one. */
  ghost predicate OnlyAccepted(q: Queue) {
    && (forall m :: m in q.log.wire ==> IsAccepted(q, m))
    && (forall m :: m in q.queue ==> IsAccepted(q, m))
    && (forall k :: k in q.pending ==> IsAccepted(q, q.pending[k]))
    && (forall x :: x in q.keyQueue && x.Keyless? ==> IsAccepted(q, x.msg))
  }

  lemma AcceptedGrows(q: Queue, t: Queue, m: Msg)
    requires t.log.accepted == q.log.accepted + [m]
    ensures IsAccepted(t, m) && forall x :: IsAccepted(q, x) ==> IsAccepted(t, x)
  {
    assert t.log.accepted[|q.log.accepted|] == m;
    forall x | IsAccepted(q, x)
      ensures IsAccepted(t, x)
    {
      var i :| 0 <= i < |q.log.accepted| && SameFrame(q.log.accepted[i], x);
      assert t.log.accepted[i] == q.log.accepted[i];
    }
  }

  /** Nothing but `m` has joined what waits. */
  ghost predicate JoinedBy(q: Queue, t: Queue, m: Msg) {
    && t.log.wire == q.log.wire
    && (forall x :: x in t.queue ==> x in q.queue || x == m)
    && (forall k :: k in t.pending ==> t.pending[k] == m || (k in q.pending && t.pending[k] == q.pending[k]))
    && (forall x :: x in t.keyQueue && x.Keyless? ==> x in q.keyQueue || x.msg == m)
  }

  lemma OfferJoins(q: Queue, msgType: byte, flags: u16, body: Body, limits: Limits)
    ensures JoinedBy(q, Offered(q, msgType, flags, body, limits), Msg(msgType, flags, q.outSeq, body))
  {
    hide KeyOf, Wants, JoinedBy, Enqueued, Overwritten;
    var k, m := KeyOf(msgType, body), Msg(msgType, flags, q.outSeq, body);
    NobodyJoins(q, m);
    EnqueueJoins(q, q, m, limits);
    EnqueueJoins(q, q.(outSeq := q.outSeq + 1), m, limits);
    if k.Some? {
      OverwriteJoins(q, m, k.value);
    }
  }

  lemma NobodyJoins(q: Queue, m: Msg)
    ensures JoinedBy(q, q, m)
  {}

  lemma OverwriteJoins(q: Queue, m: Msg, k: Key)
    ensures JoinedBy(q, Overwritten(q, m, k), m)
  {}

  lemma EnqueueJoins(q: Queue, p: Queue, m: Msg, limits: Limits)
    requires p == q || p == q.(outSeq := q.outSeq + 1)
    ensures JoinedBy(q, Enqueued(p, m, limits), m)
  {
    DropJoins(p, limits, m);
    NobodyJoins(p, m);
    var d := if Backlog(p) >= limits.clientQueue then DroppedOldest(p, limits) else p;
    PushJoins(d, m);
    RefuseJoins(d, m);
    var t := Enqueued(p, m, limits);
    assert t == Refused(d, m) || t == Pushed(d, m);
    hide DroppedOldest, Pushed, Refused, Enqueued;
    JoinedTwice(p, d, t, m);
  }

  lemma RefuseJoins(q: Queue, m: Msg)
    ensures JoinedBy(q, Refused(q, m), m)
  {
    hide KeyOf;
  }

  lemma JoinedTwice(q: Queue, r: Queue, t: Queue, m: Msg)
    requires JoinedBy(q, r, m) && JoinedBy(r, t, m)
    ensures JoinedBy(q, t, m)
  {}

  lemma DropJoins(q: Queue, limits: Limits, m: Msg)
    ensures JoinedBy(q, DroppedOldest(q, limits), m)
  {}

  lemma PushJoins(q: Queue, m: Msg)
    ensures JoinedBy(q, Pushed(q, m), m)
  {
    hide KeyOf;
  }

  lemma MoveOnlyAccepted(q: Queue)
    requires OnlyAccepted(q) && Backlog(q) > 0
    ensures OnlyAccepted(Moved(q))
  {
    hide IsAccepted;
    forall x
      ensures IsAccepted(q, x) ==> IsAccepted(Moved(q), x)
    {
      Renumbered(q, Moved(q), x, 0);
    }
    if q.conflate {
      var x := q.keyQueue[0];
      assert x in q.keyQueue;
      if x.Keyless? {
        Renumbered(q, Moved(q), x.msg, q.outSeq);
      } else if x.key in q.pending {
        Renumbered(q, Moved(q), q.pending[x.key], q.outSeq);
      }
    } else {
      assert q.queue[0] in q.queue;
    }
  }

  lemma Renumbered(q: Queue, t: Queue, x: Msg, n: nat)
    requires t.log.accepted == q.log.accepted
    ensures IsAccepted(q, x) ==> IsAccepted(t, x) && IsAccepted(t, x.(number := n))
  {
    if IsAccepted(q, x) {
      var i :| 0 <= i < |q.log.accepted| && SameFrame(q.log.accepted[i], x);
      assert SameFrame(t.log.accepted[i], x.(number := n));
    }
  }

  lemma StepOnlyAccepted(q: Queue, e: Event, limits: Limits)
    requires OnlyAccepted(q)
    ensures OnlyAccepted(Step(q, e, limits))
  {
    match e
    case Bus(t, f, b) =>
      OfferAccepts(q, t, f, b, limits);
      OfferJoins(q, t, f, b, limits);
      var m, r := Msg(t, f, q.outSeq, b), Offered(q, t, f, b, limits);
      hide Offered, LetsThrough, Waits, IsAccepted;
      if r.log.accepted == q.log.accepted + [m] {
        AcceptedGrows(q, r, m);
      }
    case Move =>
      if Backlog(q) > 0 {
        hide OnlyAccepted, Moved;
        MoveOnlyAccepted(q);
      }
    case _ =>
  }

  lemma {:induction false} RunOnlyAccepted(es: seq<Event>, limits: Limits)
    ensures OnlyAccepted(Run(es, limits))
    decreases |es|
  {
    hide OnlyAccepted, Step;
    if es == [] {
      assert OnlyAccepted(OPENED) by { NothingAccepted(); }
    } else {
      RunOnlyAccepted(es[..|es| - 1], limits);
      StepOnlyAccepted(Run(es[..|es| - 1], limits), es[|es| - 1], limits);
    }
  }

  lemma NothingAccepted()
    ensures OnlyAccepted(OPENED)
  {}

  /** In every run: a frame in the queue, in the table or on the wire came from the bus at a moment when the filter then
      in force let it through. */
  lemma NothingOutsideTheFilter(es: seq<Event>, limits: Limits, m: Msg) returns (j: nat)
    requires var q := Run(es, limits); m in q.log.wire || m in q.queue || m in q.pending.Values || Keyless(m) in q.keyQueue
    ensures ChosenAt(es, limits, j, m)
  {
    hide Run, ChosenAt;
    var q := Run(es, limits);
    RunOnlyAccepted(es, limits);
    AcceptedAreChosen(es, limits);
    assert IsAccepted(q, m);
    var i :| 0 <= i < |q.log.accepted| && SameFrame(q.log.accepted[i], m);
    j := ChosenHasMoment(es, limits, i);
    SameIsChosen(es, limits, j, Chosen(es, limits)[i], m);
  }

  lemma SameIsChosen(es: seq<Event>, limits: Limits, j: nat, a: Msg, b: Msg)
    requires ChosenAt(es, limits, j, a) && SameFrame(a, b)
    ensures ChosenAt(es, limits, j, b)
  {}

  // ---- When a subscriber is closed ----

  /** In every run: a subscriber is closed exactly when more frames were dropped than the limit allows, or its
      connection broke. */
  lemma {:induction false} ClosedExactly(es: seq<Event>, limits: Limits)
    ensures var q := Run(es, limits); q.closing <==> q.dropped > limits.dropLimit || Broken in es
    decreases |es|
  {
    hide Step;
    if es == [] {
    } else {
      var q, e := Run(es[..|es| - 1], limits), es[|es| - 1];
      ClosedExactly(es[..|es| - 1], limits);
      assert es == es[..|es| - 1] + [e];
      StepCloses(q, e, limits);
    }
  }

  lemma StepCloses(q: Queue, e: Event, limits: Limits)
    ensures var t := Step(q, e, limits);
            && t.dropped >= q.dropped
            && (t.closing <==> q.closing || e == Broken || (t.dropped > q.dropped && t.dropped > limits.dropLimit))
  {
    if e.Bus? {
      OfferAccepts(q, e.msgType, e.flags, e.body, limits);
      hide Offered, LetsThrough, Waits;
    }
  }
}
