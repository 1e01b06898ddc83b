/** One subscriber of the TCP gateway: the bounded queue in front of its socket, in stream mode (every frame,
    oldest dropped first) and in conflate mode (only the latest value of each key waits). */
module Gateway {
  import opened Wrappers
  import opened Bytes
  import opened Feed
  import opened FrameParsers

  /** A place in the conflating queue: a key whose value waits in the table, or a keyless frame itself. */
  datatype Item = Keyed(key: Key) | Keyless(msg: Msg)

  datatype Limits = Limits(clientQueue: nat, dropLimit: nat)

  /** Since the last mode switch: the frames accepted, the frames passed on to the socket buffer, the keys whose
      newest value was dropped, the frame refused at the drop limit, and where the counters stood. */
  datatype Log = Log(accepted: seq<Msg>, wire: seq<Msg>, stale: set<Key>, refused: nat, seq0: nat, dropped0: nat, conflated0: nat)

  datatype Queue = Queue(
    conflate: bool, symbols: Option<set<Key>>,
    queue: seq<Msg>, keyQueue: seq<Item>, pending: map<Key, Msg>,
    outSeq: nat, dropped: nat, conflated: nat, closing: bool, log: Log)

  const OPENED := Queue(false, None, [], [], map[], 0, 0, 0, false, Log([], [], {}, 0, 0, 0, 0))

  predicate Wants(symbols: Option<set<Key>>, k: Key) {
    symbols == None || k in symbols.value
  }

  function KeyOfMsg(m: Msg): Option<Key> {
    KeyOf(m.msgType, m.body)
  }

  function Backlog(q: Queue): nat {
    if q.conflate then |q.keyQueue| else |q.queue|
  }

  /** The oldest waiting frame is dropped; past the limit the subscriber is to be closed. */
  function DroppedOldest(q: Queue, limits: Limits): Queue {
    var p := q.(dropped := q.dropped + 1, closing := q.closing || q.dropped + 1 > limits.dropLimit);
    if q.conflate then
      if q.keyQueue == [] then p
      else if q.keyQueue[0].Keyed? then
        p.(keyQueue := q.keyQueue[1..], pending := q.pending - {q.keyQueue[0].key},
           log := q.log.(stale := q.log.stale + {q.keyQueue[0].key}))
      else p.(keyQueue := q.keyQueue[1..])
    else if q.queue == [] then p else p.(queue := q.queue[1..])
  }

  function Pushed(q: Queue, m: Msg): Queue {
    var k := KeyOfMsg(m);
    var log := q.log.(accepted := q.log.accepted + [m]);
    if !q.conflate then q.(queue := q.queue + [m], log := log)
    else if k.Some? then
      q.(keyQueue := q.keyQueue + [Keyed(k.value)], pending := q.pending[k.value := m], log := log.(stale := log.stale - {k.value}))
    else q.(keyQueue := q.keyQueue + [Keyless(m)], log := log)
  }

  /** The frame that found the subscriber over its drop limit. */
  function Refused(q: Queue, m: Msg): Queue {
    var k := KeyOfMsg(m);
    q.(log := q.log.(accepted := q.log.accepted + [m], refused := q.log.refused + 1,
                     stale := if k.Some? then q.log.stale + {k.value} else q.log.stale))
  }

  /** A newer value takes the place of the one that waits under the same key. */
  function Overwritten(q: Queue, m: Msg, k: Key): Queue {
    q.(log := q.log.(accepted := q.log.accepted + [m]), pending := q.pending[k := m], conflated := q.conflated + 1)
  }

  function Enqueued(q: Queue, m: Msg, limits: Limits): Queue {
    var d := if Backlog(q) >= limits.clientQueue then DroppedOldest(q, limits) else q;
    if d.closing then Refused(d, m) else Pushed(d, m)
  }

  /** A frame of the bus is offered to this subscriber. */
  function Offered(q: Queue, msgType: byte, flags: u16, body: Body, limits: Limits): Queue {
    var k := KeyOf(msgType, body);
    if q.closing || (k.Some? && !Wants(q.symbols, k.value)) then q
    else
      var m := Msg(msgType, flags, q.outSeq, body);
      if q.conflate then
        if k.Some? && k.value in q.pending then Overwritten(q, m, k.value) else Enqueued(q, m, limits)
      else Enqueued(q.(outSeq := q.outSeq + 1), m, limits)
  }

  /** The front of the queue goes into the socket buffer; in conflate mode it gets the value and the number of
      that moment. */
  function Moved(q: Queue): Queue
    requires Backlog(q) > 0
  {
    if !q.conflate then Emitted(q, q.queue[0]).(queue := q.queue[1..])
    else
      var p := q.(keyQueue := q.keyQueue[1..]);
      match q.keyQueue[0]
      case Keyless(m) => Emitted(p, m.(number := q.outSeq)).(outSeq := q.outSeq + 1)
      case Keyed(k) =>
        if k !in q.pending then p
        else Emitted(p, q.pending[k].(number := q.outSeq)).(outSeq := q.outSeq + 1, pending := q.pending - {k})
  }

  function Emitted(q: Queue, m: Msg): Queue {
    q.(log := q.log.(wire := q.log.wire + [m]))
  }

  /** A mode switch is a point of resynchronisation: what waited is forgotten. */
  function Switched(q: Queue, conflate: bool): Queue {
    if q.conflate == conflate then q
    else
      q.(conflate := conflate, queue := [], keyQueue := [], pending := map[],
         log := Log([], [], {}, 0, q.outSeq, q.dropped, q.conflated))
  }

  // ---- Runs ----

  datatype Event = Bus(msgType: byte, flags: u16, body: Body) | Move | Filter(symbols: Option<set<Key>>) | Mode(conflate: bool) | Broken

  function Step(q: Queue, e: Event, limits: Limits): Queue {
    match e
    case Bus(t, f, b) => Offered(q, t, f, b, limits)
    case Move => if Backlog(q) > 0 then Moved(q) else q
    case Filter(symbols) => q.(symbols := symbols)
    case Mode(c) => Switched(q, c)
    case Broken => q.(closing := true)
  }

  function Run(es: seq<Event>, limits: Limits): Queue
    decreases |es|
  {
    if es == [] then OPENED else Step(Run(es[..|es| - 1], limits), es[|es| - 1], limits)
  }

  // ---- Stream mode ----

  ghost predicate SameFrame(a: Msg, b: Msg) {
    a.msgType == b.msgType && a.flags == b.flags && a.body == b.body
  }

  ghost predicate Increasing(ms: seq<Msg>) {
    forall i, j :: 0 <= i < j < |ms| ==> ms[i].number < ms[j].number
  }

  ghost predicate StreamCounts(q: Queue, limits: Limits) {
    && q.outSeq == q.log.seq0 + |q.log.accepted|
    && q.dropped >= q.log.dropped0
    && |q.log.wire| + |q.queue| + (q.dropped - q.log.dropped0) + q.log.refused == |q.log.accepted|
    && |q.queue| <= limits.clientQueue
    && q.log.refused <= 1 && (q.log.refused == 1 ==> q.closing)
  }

  ghost predicate StreamNumbers(q: Queue) {
    && (forall i :: 0 <= i < |q.queue| ==> q.queue[i].number == q.outSeq - q.log.refused - |q.queue| + i)
    && (q.queue == [] && q.log.refused == 0 && q.log.accepted != [] ==> q.log.wire != [] && q.log.wire[|q.log.wire| - 1].number + 1 == q.outSeq)
    && Increasing(q.log.wire)
    && (q.log.wire != [] ==> q.log.wire[|q.log.wire| - 1].number + |q.queue| + q.log.refused < q.outSeq)
  }

  ghost predicate StreamContent(q: Queue) {
    forall m :: m in q.log.wire || m in q.queue ==> OfAccepted(q, m)
  }

  /** `m` is the accepted frame of its number. */
  ghost predicate OfAccepted(q: Queue, m: Msg) {
    q.log.seq0 <= m.number < q.log.seq0 + |q.log.accepted| && SameFrame(q.log.accepted[m.number - q.log.seq0], m)
  }

  /** The queue is the unbroken end of the numbering, every frame passed on or waiting is the accepted frame of
      its number, and every number was passed on, waits, was dropped or was refused. */
  ghost predicate StreamInv(q: Queue, limits: Limits) {
    StreamCounts(q, limits) && StreamNumbers(q) && StreamContent(q)
  }

  lemma StreamContentShrinks(q: Queue, t: Queue)
    requires StreamContent(q) && t.log.seq0 == q.log.seq0 && q.log.accepted <= t.log.accepted
    requires forall m :: m in t.log.wire || m in t.queue ==> m in q.log.wire || m in q.queue || OfAccepted(t, m)
    ensures StreamContent(t)
  {
    forall m | m in t.log.wire || m in t.queue
      ensures OfAccepted(t, m)
    {
      assert OfAccepted(q, m) || OfAccepted(t, m);
    }
  }

  /** Room is made when the queue is full; `q` already carries the number of the frame to come. */
  lemma StreamRoom(q: Queue, limits: Limits)
    requires !q.conflate && StreamInv(q, limits) && |q.queue| >= limits.clientQueue > 0
    ensures var t := DroppedOldest(q, limits);
            && StreamCounts(t, limits) && |t.queue| < limits.clientQueue && StreamContent(t)
            && (forall i :: 0 <= i < |t.queue| ==> t.queue[i].number == q.outSeq - q.log.refused - |t.queue| + i)
            && Increasing(t.log.wire)
            && (t.log.wire != [] ==> t.log.wire[|t.log.wire| - 1].number + |t.queue| + q.log.refused < q.outSeq)
  {
    var t := DroppedOldest(q, limits);
    StreamContentShrinks(q, t) by { hide OfAccepted; }
    hide StreamContent;
  }

  lemma StreamEnqueue(q: Queue, m: Msg, limits: Limits)
    requires !q.conflate && !q.closing && StreamInv(q, limits) && limits.clientQueue > 0 && m.number == q.outSeq
    ensures StreamInv(Enqueued(q.(outSeq := q.outSeq + 1), m, limits), limits)
  {
    if |q.queue| >= limits.clientQueue {
      StreamRoom(q, limits);
    }
    var d := if |q.queue| >= limits.clientQueue then DroppedOldest(q, limits) else q;
    var t := if d.closing then Refused(d, m) else Pushed(d, m);
    hide StreamInv, StreamContent, Increasing;
    StreamEnters(d, m, t.(outSeq := q.outSeq + 1), limits);
  }

  /** A frame that gets the next number joins the queue, or is refused. */
  lemma StreamEnters(d: Queue, m: Msg, t: Queue, limits: Limits)
    requires !d.conflate && StreamCounts(d, limits) && StreamContent(d) && d.log.refused == 0
    requires |d.queue| < limits.clientQueue && m.number == d.outSeq
    requires forall i :: 0 <= i < |d.queue| ==> d.queue[i].number == d.outSeq - |d.queue| + i
    requires Increasing(d.log.wire) && (d.log.wire != [] ==> d.log.wire[|d.log.wire| - 1].number + |d.queue| < d.outSeq)
    requires t == (if d.closing then Refused(d, m) else Pushed(d, m)).(outSeq := d.outSeq + 1)
    ensures StreamInv(t, limits)
  {
    hide StreamContent, KeyOfMsg;
    assert t.log.accepted == d.log.accepted + [m];
    assert OfAccepted(t, m);
    assert t.log.wire == d.log.wire && (t.queue == d.queue || t.queue == d.queue + [m]);
    hide OfAccepted;
    StreamContentShrinks(d, t);
  }

  lemma StreamMove(q: Queue, limits: Limits)
    requires !q.conflate && StreamInv(q, limits) && q.queue != []
    ensures StreamInv(Moved(q), limits)
  {
    StreamContentShrinks(q, Moved(q)) by { hide OfAccepted; }
    hide StreamContent;
  }

  // ---- Conflate mode ----

  ghost predicate KeysMatch(q: Queue) {
    && (forall i, j :: 0 <= i < j < |q.keyQueue| && q.keyQueue[i].Keyed? && q.keyQueue[j].Keyed? ==> q.keyQueue[i] != q.keyQueue[j])
    && (forall k :: k in q.pending <==> Keyed(k) in q.keyQueue)
    && (forall k :: k in q.pending ==> KeyOfMsg(q.pending[k]) == Some(k))
    && (forall x :: x in q.keyQueue && x.Keyless? ==> KeyOfMsg(x.msg) == None)
  }

  /** What a consumer of the wire will see once what waits has been sent. */
  function Eventually(q: Queue): View {
    ViewOf(q.log.wire) + map k | k in q.pending :: Value(q.pending[k].msgType, q.pending[k].body)
  }

  function At(v: View, k: Key): Option<Value> {
    if k in v then Some(v[k]) else None
  }

  ghost predicate Fresh(q: Queue) {
    forall k :: k !in q.log.stale ==> At(ViewOf(q.log.accepted), k) == At(Eventually(q), k)
  }

  /** The keyless frames of a sequence, without their numbers. */
  function Plain(ms: seq<Msg>): seq<Msg> {
    if ms == [] then []
    else
      var m := ms[|ms| - 1];
      Plain(ms[..|ms| - 1]) + if KeyOfMsg(m) == None then [m.(number := 0)] else []
  }

  function Waiting(items: seq<Item>): seq<Msg> {
    if items == [] then []
    else
      var x := items[|items| - 1];
      Waiting(items[..|items| - 1]) + if x.Keyless? then [x.msg.(number := 0)] else []
  }

  ghost predicate Counts(q: Queue, limits: Limits) {
    && q.dropped >= q.log.dropped0 && q.conflated >= q.log.conflated0
    && q.log.refused <= 1 && (q.log.refused == 1 ==> q.closing && q.dropped > q.log.dropped0)
    && |q.log.stale| <= q.dropped - q.log.dropped0 + q.log.refused
    && |q.keyQueue| <= limits.clientQueue
    && |q.log.accepted| == |q.log.wire| + (q.conflated - q.log.conflated0) + |q.keyQueue| + (q.dropped - q.log.dropped0) + q.log.refused
    && q.outSeq == q.log.seq0 + |q.log.wire| && (forall i :: 0 <= i < |q.log.wire| ==> q.log.wire[i].number == q.log.seq0 + i)
  }

  ghost predicate InOrder(q: Queue) {
    q.dropped == q.log.dropped0 ==> Plain(q.log.accepted) == Plain(q.log.wire) + Waiting(q.keyQueue)
  }

  /** Each waiting key waits once, with its newest value; numbers go out without a gap; every accepted frame was
      passed on, conflated, waits, was dropped or was refused; and keyless frames keep their order. */
  ghost predicate ConflateInv(q: Queue, limits: Limits) {
    KeysMatch(q) && Fresh(q) && Counts(q, limits) && InOrder(q)
  }

  lemma PlainMore(ms: seq<Msg>, m: Msg)
    ensures Plain(ms + [m]) == Plain(ms) + if KeyOfMsg(m) == None then [m.(number := 0)] else []
  {
    assert (ms + [m])[..|ms|] == ms;
  }

  lemma WaitingMore(items: seq<Item>, x: Item)
    ensures Waiting(items + [x]) == Waiting(items) + if x.Keyless? then [x.msg.(number := 0)] else []
  {
    assert (items + [x])[..|items|] == items;
  }

  lemma {:induction false} WaitingFront(items: seq<Item>)
    requires items != []
    ensures Waiting(items) == (if items[0].Keyless? then [items[0].msg.(number := 0)] else []) + Waiting(items[1..])
    decreases |items|
  {
    if |items| > 1 {
      var front := items[..|items| - 1];
      WaitingFront(front);
      assert front[1..] == items[1..][..|items| - 2];
    } else {
      assert items[..0] == [] && items[1..] == [];
    }
  }

  lemma DropKeepsKeys(q: Queue, limits: Limits)
    requires q.conflate && KeysMatch(q) && q.keyQueue != []
    ensures KeysMatch(DroppedOldest(q, limits))
  {
    FrontKey(q);
    hide KeyOfMsg;
    FrontGone(q, DroppedOldest(q, limits));
  }

  lemma FrontKey(q: Queue)
    requires KeysMatch(q) && q.keyQueue != []
    ensures q.keyQueue[0].Keyed? ==> q.keyQueue[0].key in q.pending && KeyOfMsg(q.pending[q.keyQueue[0].key]) == Some(q.keyQueue[0].key)
    ensures q.keyQueue[0].Keyless? ==> KeyOfMsg(q.keyQueue[0].msg) == None
  {
    hide KeyOfMsg;
    assert q.keyQueue[0] in q.keyQueue;
  }

  lemma FrontGone(q: Queue, t: Queue)
    requires KeysMatch(q) && q.keyQueue != [] && t.keyQueue == q.keyQueue[1..]
    requires t.pending == if q.keyQueue[0].Keyed? then q.pending - {q.keyQueue[0].key} else q.pending
    ensures KeysMatch(t)
  {
    hide KeyOfMsg;
    var x := q.keyQueue[0];
    assert q.keyQueue == [x] + t.keyQueue;
    forall k
      ensures k in t.pending <==> Keyed(k) in t.keyQueue
    {
      assert Keyed(k) in q.keyQueue <==> Keyed(k) == x || Keyed(k) in t.keyQueue;
      if x == Keyed(k) {
        assert forall i :: 0 <= i < |t.keyQueue| ==> t.keyQueue[i] == q.keyQueue[i + 1];
      }
    }
  }

  lemma DropKeepsFresh(q: Queue, limits: Limits)
    requires q.conflate && Fresh(q) && q.keyQueue != []
    ensures Fresh(DroppedOldest(q, limits))
  {
    hide ViewOf;
    var t := DroppedOldest(q, limits);
    forall k | k !in t.log.stale
      ensures At(Eventually(t), k) == At(Eventually(q), k) && k !in q.log.stale
    {}
  }

  lemma StaleMore(s: set<Key>, r: set<Key>)
    requires |r| <= 1
    ensures |s + r| <= |s| + 1
  {
    assert s + r == s + (r - s);
    assert |r - s| + |r * s| == |r| by { assert (r - s) + (r * s) == r; }
  }

  lemma DropKeeps(q: Queue, limits: Limits)
    requires q.conflate && ConflateInv(q, limits) && q.keyQueue != []
    ensures ConflateInv(DroppedOldest(q, limits), limits)
  {
    hide KeysMatch, Fresh, Plain, Waiting;
    DropKeepsKeys(q, limits);
    DropKeepsFresh(q, limits);
    StaleMore(q.log.stale, if q.keyQueue[0].Keyed? then {q.keyQueue[0].key} else {});
  }

  lemma PushKeepsKeys(q: Queue, m: Msg)
    requires q.conflate && KeysMatch(q) && (KeyOfMsg(m).Some? ==> KeyOfMsg(m).value !in q.pending)
    ensures KeysMatch(Pushed(q, m))
  {
    hide KeyOfMsg;
    var t := Pushed(q, m);
    var k := KeyOfMsg(m);
    var x := if k.Some? then Keyed(k.value) else Keyless(m);
    assert t.keyQueue == q.keyQueue + [x];
    assert forall y :: y in t.keyQueue <==> y in q.keyQueue || y == x;
    if k.Some? {
      assert Keyed(k.value) !in q.keyQueue;
      assert forall i :: 0 <= i < |q.keyQueue| ==> q.keyQueue[i] in q.keyQueue;
    }
  }

  lemma PushKeepsFresh(q: Queue, m: Msg)
    requires q.conflate && Fresh(q)
    ensures Fresh(Pushed(q, m))
  {
    hide KeyOf, ViewOf;
    ViewOfMore(q.log.accepted, m);
    var t := Pushed(q, m);
    forall k | k !in t.log.stale
      ensures At(ViewOf(t.log.accepted), k) == At(Eventually(t), k)
    {
      assert KeyOfMsg(m) == Some(k) || k !in q.log.stale;
    }
  }

  lemma PushKeepsOrder(q: Queue, m: Msg)
    requires q.conflate && InOrder(q)
    ensures InOrder(Pushed(q, m))
  {
    hide KeyOfMsg, Plain, Waiting;
    PlainMore(q.log.accepted, m);
    var k := KeyOfMsg(m);
    WaitingMore(q.keyQueue, if k.Some? then Keyed(k.value) else Keyless(m));
    assert Plain(q.log.wire) + Waiting(q.keyQueue) + [m.(number := 0)] == Plain(q.log.wire) + (Waiting(q.keyQueue) + [m.(number := 0)]);
  }

  lemma PushKeepsCounts(q: Queue, m: Msg, limits: Limits)
    requires q.conflate && Counts(q, limits) && |q.keyQueue| < limits.clientQueue
    ensures Counts(Pushed(q, m), limits)
  {
    hide KeyOfMsg;
    var k := KeyOfMsg(m);
    StaleFewer(q.log.stale, if k.Some? then {k.value} else {});
  }

  lemma PushKeeps(q: Queue, m: Msg, limits: Limits)
    requires q.conflate && ConflateInv(q, limits) && |q.keyQueue| < limits.clientQueue
    requires KeyOfMsg(m).Some? ==> KeyOfMsg(m).value !in q.pending
    ensures ConflateInv(Pushed(q, m), limits)
  {
    hide KeysMatch, Fresh, Counts, InOrder, KeyOfMsg;
    PushKeepsKeys(q, m);
    PushKeepsFresh(q, m);
    PushKeepsOrder(q, m);
    PushKeepsCounts(q, m, limits);
  }

  lemma StaleFewer(s: set<Key>, r: set<Key>)
    ensures |s - r| <= |s|
  {
    assert s == (s - r) + (s * r);
  }

  lemma RefuseKeeps(q: Queue, m: Msg, limits: Limits)
    requires q.conflate && ConflateInv(q, limits) && q.closing && q.log.refused == 0 && q.dropped > q.log.dropped0
    ensures ConflateInv(Refused(q, m), limits)
  {
    hide KeyOf, ViewOf, Plain, Waiting;
    ViewOfMore(q.log.accepted, m);
  }

  lemma OverwriteKeeps(q: Queue, m: Msg, k: Key, limits: Limits)
    requires q.conflate && ConflateInv(q, limits) && KeyOfMsg(m) == Some(k) && k in q.pending
    ensures ConflateInv(Overwritten(q, m, k), limits)
  {
    hide KeyOf, ViewOf, Plain, Waiting;
    ViewOfMore(q.log.accepted, m);
    PlainMore(q.log.accepted, m);
  }

  lemma MoveKeepsOrder(q: Queue, m: Msg)
    requires q.conflate && InOrder(q) && q.keyQueue != [] && Moved(q).log.wire == q.log.wire + [m]
    requires q.keyQueue[0].Keyed? ==> KeyOfMsg(m).Some?
    requires q.keyQueue[0].Keyless? ==> KeyOfMsg(m) == None && m.(number := 0) == q.keyQueue[0].msg.(number := 0)
    ensures InOrder(Moved(q))
  {
    hide KeyOfMsg, Plain, Waiting;
    PlainMore(q.log.wire, m);
    WaitingFront(q.keyQueue);
    var first := if q.keyQueue[0].Keyless? then [q.keyQueue[0].msg.(number := 0)] else [];
    assert Plain(q.log.wire) + (first + Waiting(q.keyQueue[1..])) == Plain(q.log.wire) + first + Waiting(q.keyQueue[1..]);
  }

  lemma MoveKeeps(q: Queue, limits: Limits)
    requires q.conflate && ConflateInv(q, limits) && q.keyQueue != []
    ensures ConflateInv(Moved(q), limits)
  {
    FrontKey(q);
    FrontGone(q, Moved(q));
    var t := Moved(q);
    var m := t.log.wire[|q.log.wire|];
    assert t.log.wire == q.log.wire + [m];
    hide KeysMatch, Fresh, InOrder;
    MoveKeepsOrder(q, m) by { hide KeyOf; }
    hide KeyOfMsg;
    MoveKeepsFresh(q, m);
  }

  lemma MoveKeepsFresh(q: Queue, m: Msg)
    requires q.conflate && Fresh(q) && q.keyQueue != [] && Moved(q).log.wire == q.log.wire + [m]
    requires q.keyQueue[0].Keyed? ==> q.keyQueue[0].key in q.pending && KeyOfMsg(q.pending[q.keyQueue[0].key]) == Some(q.keyQueue[0].key)
    requires q.keyQueue[0].Keyless? ==> KeyOfMsg(q.keyQueue[0].msg) == None
    ensures Fresh(Moved(q))
  {
    hide KeyOf, ViewOf;
    ViewOfMore(q.log.wire, m);
    var t := Moved(q);
    assert m == t.log.wire[|q.log.wire|];
    forall k
      ensures At(Eventually(t), k) == At(Eventually(q), k)
    {}
  }

  lemma ConflateEnqueue(q: Queue, m: Msg, limits: Limits)
    requires q.conflate && !q.closing && ConflateInv(q, limits) && limits.clientQueue > 0
    requires KeyOfMsg(m).Some? ==> KeyOfMsg(m).value !in q.pending
    ensures ConflateInv(Enqueued(q, m, limits), limits)
  {
    hide KeysMatch, Fresh, InOrder, KeyOfMsg, Pushed, Refused;
    if |q.keyQueue| >= limits.clientQueue {
      DropKeeps(q, limits);
      var d := DroppedOldest(q, limits);
      if d.closing {
        RefuseKeeps(d, m, limits);
      } else {
        PushKeeps(d, m, limits);
      }
    } else {
      PushKeeps(q, m, limits);
    }
  }

  // ---- Every run ----

  ghost predicate Inv(q: Queue, limits: Limits) {
    if q.conflate then ConflateInv(q, limits) else StreamInv(q, limits)
  }

  lemma EmptyInv(q: Queue, limits: Limits)
    requires q.queue == [] && q.keyQueue == [] && q.pending == map[] && q.log.accepted == [] && q.log.wire == []
    requires q.log.stale == {} && q.log.refused == 0 && q.log.seq0 == q.outSeq && q.log.dropped0 == q.dropped && q.log.conflated0 == q.conflated
    ensures Inv(q, limits)
  {}

  lemma OfferKeeps(q: Queue, msgType: byte, flags: u16, body: Body, limits: Limits)
    requires Inv(q, limits) && limits.clientQueue > 0
    ensures Inv(Offered(q, msgType, flags, body, limits), limits)
  {
    hide StreamInv, ConflateInv, KeyOf, Enqueued, Overwritten;
    var k, m := KeyOf(msgType, body), Msg(msgType, flags, q.outSeq, body);
    if !q.closing && (k == None || Wants(q.symbols, k.value)) {
      EnqueueKeepsMode(q.(outSeq := q.outSeq + 1), m, limits);
      EnqueueKeepsMode(q, m, limits);
      if !q.conflate {
        StreamEnqueue(q, m, limits);
      } else if k.Some? && k.value in q.pending {
        OverwriteKeepsMode(q, m, k.value);
        OverwriteKeeps(q, m, k.value, limits);
      } else {
        ConflateEnqueue(q, m, limits);
      }
    }
  }

  lemma StepKeepsInv(q: Queue, e: Event, limits: Limits)
    requires Inv(q, limits) && limits.clientQueue > 0
    ensures Inv(Step(q, e, limits), limits)
  {
    match e
    case Bus(t, f, b) =>
      hide Inv, Offered;
      OfferKeeps(q, t, f, b, limits);
    case Move =>
      hide Inv, Moved;
      if Backlog(q) > 0 {
        MovingKeeps(q, limits);
      }
    case Filter(symbols) =>
      hide Inv;
      SymbolsAndClosing(q, symbols, limits);
    case Mode(c) =>
      hide Inv, Switched;
      SwitchKeeps(q, c, limits);
    case Broken =>
      hide Inv;
      SymbolsAndClosing(q, q.symbols, limits);
  }

  lemma MovingKeeps(q: Queue, limits: Limits)
    requires Inv(q, limits) && Backlog(q) > 0
    ensures Inv(Moved(q), limits)
  {
    hide StreamInv, ConflateInv;
    if q.conflate {
      MoveKeeps(q, limits);
    } else {
      StreamMove(q, limits);
    }
  }

  lemma SymbolsAndClosing(q: Queue, symbols: Option<set<Key>>, limits: Limits)
    requires Inv(q, limits)
    ensures Inv(q.(symbols := symbols), limits) && Inv(q.(closing := true), limits)
  {
    hide ViewOf, Plain, Waiting, KeyOfMsg;
  }

  lemma SwitchKeeps(q: Queue, conflate: bool, limits: Limits)
    requires Inv(q, limits)
    ensures Inv(Switched(q, conflate), limits)
  {
    hide Inv;
    if q.conflate != conflate {
      EmptyInv(Switched(q, conflate), limits);
    }
  }

  lemma EnqueueKeepsMode(q: Queue, m: Msg, limits: Limits)
    ensures Enqueued(q, m, limits).conflate == q.conflate
  {}

  lemma OverwriteKeepsMode(q: Queue, m: Msg, k: Key)
    ensures Overwritten(q, m, k).conflate == q.conflate
  {}

  lemma {:induction false} RunKeepsInv(es: seq<Event>, limits: Limits)
    requires limits.clientQueue > 0
    ensures Inv(Run(es, limits), limits)
    decreases |es|
  {
    hide Inv, Step;
    if es == [] {
      EmptyInv(OPENED, limits);
    } else {
      RunKeepsInv(es[..|es| - 1], limits);
      StepKeepsInv(Run(es[..|es| - 1], limits), es[|es| - 1], limits);
    }
  }

  /** In every run, for every filter: in stream mode the waiting frames carry consecutive numbers, the last of them
      just below the next one (less the frame that was refused, if one was); passed on, waiting, dropped and refused
      frames add up to the accepted ones, and every frame passed on or waiting is the accepted frame of its number. */
  lemma StreamBacklogIsConsecutive(es: seq<Event>, limits: Limits)
    requires limits.clientQueue > 0
    ensures var q := Run(es, limits);
            !q.conflate ==>
              && |q.queue| <= limits.clientQueue && q.log.refused <= 1 && (q.log.refused == 1 ==> q.closing)
              && (forall i :: 0 <= i < |q.queue| ==> q.queue[i].number == q.outSeq - q.log.refused - |q.queue| + i)
              && q.outSeq == q.log.seq0 + |q.log.accepted|
              && |q.log.wire| + |q.queue| + (q.dropped - q.log.dropped0) + q.log.refused == |q.log.accepted|
              && (forall m :: m in q.log.wire || m in q.queue ==>
                    q.log.seq0 <= m.number < q.outSeq && SameFrame(q.log.accepted[m.number - q.log.seq0], m))
  {
    hide ConflateInv, Run;
    RunKeepsInv(es, limits);
    var q := Run(es, limits);
    hide SameFrame;
    assert !q.conflate ==> forall m :: m in q.log.wire || m in q.queue ==> OfAccepted(q, m);
  }

  /** In every run: in conflate mode every key that no drop has left stale is, on the wire once the queue has
      drained, at the newest value accepted for it; at most as many keys are stale as frames were dropped;
      numbers have no gap and every accepted frame is accounted for. */
  lemma ConflationConverges(es: seq<Event>, limits: Limits)
    requires limits.clientQueue > 0
    ensures var q := Run(es, limits);
            q.conflate ==>
              && (forall k :: k !in q.log.stale ==> At(ViewOf(q.log.accepted), k) == At(Eventually(q), k))
              && |q.log.stale| <= q.dropped - q.log.dropped0 + q.log.refused
              && (forall i :: 0 <= i < |q.log.wire| ==> q.log.wire[i].number == q.log.seq0 + i)
              && |q.log.accepted| == |q.log.wire| + (q.conflated - q.log.conflated0) + |q.keyQueue| + (q.dropped - q.log.dropped0) + q.log.refused
              && (q.dropped == q.log.dropped0 ==> Plain(q.log.accepted) == Plain(q.log.wire) + Waiting(q.keyQueue))
              && (q.dropped == q.log.dropped0 && q.keyQueue == [] ==>
                    ViewOf(q.log.wire) == ViewOf(q.log.accepted) && Plain(q.log.wire) == Plain(q.log.accepted))
  {
    hide StreamInv, Run, Plain, ViewOf;
    RunKeepsInv(es, limits);
    var q := Run(es, limits);
    if q.conflate && q.dropped == q.log.dropped0 && q.keyQueue == [] {
      assert q.log.stale == {};
      assert q.pending == map[] by { assert forall k :: k !in q.pending; }
      assert Waiting([]) == [];
      var v, w := ViewOf(q.log.wire), ViewOf(q.log.accepted);
      assert Eventually(q) == v;
      assert forall k :: At(w, k) == At(v, k);
      SameView(v, w);
    }
  }

  lemma SameView(v: View, w: View)
    requires forall k :: At(w, k) == At(v, k)
    ensures v == w
  {
    forall k
      ensures k in v <==> k in w
      ensures k in v ==> v[k] == w[k]
    {
      assert At(w, k) == At(v, k);
    }
  }

  // ---- What the receiver's gap detector reports in stream mode ----

  function Numbers(ms: seq<Msg>): (ns: seq<nat>)
    ensures |ns| == |ms|
  {
    seq(|ms|, i requires 0 <= i < |ms| => ms[i].number)
  }

  lemma {:induction false} IncreasingHasNoDuplicates(ns: seq<nat>)
    requires ns != [] && forall i, j :: 0 <= i < j < |ns| ==> ns[i] < ns[j]
    ensures ObservedAll(UNTRACKED, ns).duplicates == 0 && Highest(ns) == ns[|ns| - 1]
    decreases |ns|
  {
    var front := ns[..|ns| - 1];
    if front == [] {
    } else {
      IncreasingHasNoDuplicates(front);
      NothingUncounted(front);
    }
  }

  /** In every run: once a stream queue has drained, the number the receiver saw first (counted from the switch
      into stream mode) and the messages it reports lost are together exactly the frames dropped here; frames
      outside its filter never show as a gap. */
  lemma LossIsExactlyTheDrops(es: seq<Event>, limits: Limits)
    requires limits.clientQueue > 0
    ensures var q := Run(es, limits);
            !q.conflate && q.log.refused == 0 && q.queue == [] && q.log.wire != [] ==>
              var t := ObservedAll(UNTRACKED, Numbers(q.log.wire));
              && t.expected == Some(q.outSeq)
              && t.duplicates == 0
              && (q.log.wire[0].number - q.log.seq0) + t.lost == q.dropped - q.log.dropped0
  {
    hide ConflateInv, Run;
    RunKeepsInv(es, limits);
    var q := Run(es, limits);
    if !q.conflate && q.log.refused == 0 && q.queue == [] && q.log.wire != [] {
      var ns := Numbers(q.log.wire);
      IncreasingHasNoDuplicates(ns);
      NothingUncounted(ns);
    }
  }
}
