/** The multicast publisher: numbering, datagrams, the retransmission ring and the recovery channel. */
module Publishing {
  import opened Wrappers
  import opened Bytes
  import opened Feed
  import opened Layout
  import opened Numbers
  import opened Sequences
  import opened Slots

  const REQUEST_LIMIT: nat := 10000

  /** Reduction to 64 bits, as unsigned arithmetic does. */
  function Wrap(x: int): (w: nat)
    ensures 0 <= x < 0x1_0000_0000_0000_0000 ==> w == x
    ensures w < 0x1_0000_0000_0000_0000
  {
    x % 0x1_0000_0000_0000_0000
  }

  lemma WrapNegative(x: int)
    requires -0x1_0000_0000_0000_0000 <= x < 0
    ensures Wrap(x) == x + 0x1_0000_0000_0000_0000
  {}

  /** What a market-data source hands over: data, not part of a snapshot and not an acknowledgement. */
  predicate Publishable(m: Msg) {
    m.body.Data? && |m.body.bytes| <= MAX_PAYLOAD && !IsSnapshotFlagged(m) && m.msgType != MSG_ACK
  }

  // ---- Specification ----

  /** The frames numbered so far, the datagram being filled and the datagrams sent. */
  datatype Pub = Pub(size: nat, maxDatagram: nat, history: seq<Msg>, filling: seq<Msg>, sent: seq<seq<Msg>>)

  function TotalSize(ms: seq<Msg>): nat {
    if ms == [] then 0 else TotalSize(ms[..|ms| - 1]) + WireSize(ms[|ms| - 1])
  }

  function Flushed(p: Pub): Pub {
    if p.filling == [] then p else p.(sent := p.sent + [p.filling], filling := [])
  }

  function Published(p: Pub, msgType: byte, flags: u16, body: Body): Pub {
    var m := Msg(msgType, flags, |p.history|, body);
    var q := if p.filling != [] && TotalSize(p.filling) + WireSize(m) > p.maxDatagram then Flushed(p) else p;
    q.(history := q.history + [m], filling := q.filling + [m])
  }

  function Oldest(n: nat, size: nat): nat {
    if n > size then n - size else 0
  }

  /** The last number a request is answered up to, in 64-bit unsigned arithmetic. */
  function LastServed(n: nat, from: u64, to: u64): u64 {
    var last := if to < n then to else if n > 0 then n - 1 else 0;
    if Wrap(last - from + 1) > REQUEST_LIMIT then Wrap(from + REQUEST_LIMIT - 1) else last
  }

  /** The frames of a retransmission: the requested numbers that the ring still holds. */
  function Resent(p: Pub, from: u64, to: u64): (ms: seq<Msg>) {
    var n := |p.history|;
    var lo, hi := Max(from, Oldest(n, p.size)), Min(LastServed(n, from, to) + 1, n);
    if lo < hi then p.history[lo..hi] else []
  }

  function ReceiptFor(p: Pub, from: u64, to: u64): Msg {
    var n := |p.history|;
    var oldest, last := Oldest(n, p.size), LastServed(n, from, to);
    var unavailable := if from < oldest then Wrap(Min(oldest, last + 1) - from) else 0;
    Msg(MSG_ACK, 0, 0, Receipt(from, last, |Resent(p, from, to)|, unavailable, oldest, n))
  }

  function Response(p: Pub, from: u64, to: u64): seq<Msg> {
    Resent(p, from, to) + [ReceiptFor(p, from, to)]
  }

  /** The flagged messages that carry the view `v`, one for each key, in any order. */
  ghost predicate IsSnapshot(ms: seq<Msg>, v: View) {
    && |ms| == |v| && ViewOf(ms) == v
    && forall m :: m in ms ==> IsSnapshotFlagged(m) && m.number == 0 && m.body.Data? && m.msgType != MSG_SNAPSHOT
  }

  function SnapshotEnd(count: nat, next: nat): Msg {
    Msg(MSG_SNAPSHOT, SNAPSHOT_FLAG, 0, Meta(count, next))
  }

  /** Every number is published once and in order: the datagrams sent and the one being filled are the history. */
  ghost predicate PubInv(p: Pub) {
    && p.size > 0
    && (forall i :: 0 <= i < |p.history| ==> p.history[i].number == i && Publishable(p.history[i]))
    && Concat(p.sent) + p.filling == p.history
    && (forall d :: d in p.sent ==> d != [] && (TotalSize(d) <= p.maxDatagram || |d| == 1))
    && (TotalSize(p.filling) <= p.maxDatagram || |p.filling| <= 1)
  }

  lemma FlushKeepsInv(p: Pub)
    requires PubInv(p)
    ensures PubInv(Flushed(p)) && Flushed(p).history == p.history && Flushed(p).filling == []
  {
    if p.filling != [] {
      var q := Flushed(p);
      ConcatMore(p.sent, p.filling);
    }
  }

  lemma PublishKeepsInv(p: Pub, msgType: byte, flags: u16, body: Body)
    requires PubInv(p) && Publishable(Msg(msgType, flags, |p.history|, body))
    ensures PubInv(Published(p, msgType, flags, body))
    ensures Published(p, msgType, flags, body).history == p.history + [Msg(msgType, flags, |p.history|, body)]
  {
    FlushKeepsInv(p);
    var m := Msg(msgType, flags, |p.history|, body);
    var q := if p.filling != [] && TotalSize(p.filling) + WireSize(m) > p.maxDatagram then Flushed(p) else p;
    AppendKeepsInv(q, m);
  }

  lemma TotalOfMore(ms: seq<Msg>, m: Msg)
    ensures TotalSize(ms + [m]) == TotalSize(ms) + WireSize(m)
  {
    assert (ms + [m])[..|ms|] == ms;
  }

  lemma NumberedMore(h: seq<Msg>, m: Msg)
    requires Publishable(m) && m.number == |h| && forall i :: 0 <= i < |h| ==> h[i].number == i && Publishable(h[i])
    ensures var g := h + [m]; forall i :: 0 <= i < |g| ==> g[i].number == i && Publishable(g[i])
  {}

  lemma AppendKeepsInv(q: Pub, m: Msg)
    requires PubInv(q) && Publishable(m) && m.number == |q.history|
    requires q.filling == [] || TotalSize(q.filling) + WireSize(m) <= q.maxDatagram
    ensures PubInv(q.(history := q.history + [m], filling := q.filling + [m]))
  {
    TotalOfMore(q.filling, m);
    NumberedMore(q.history, m);
    hide Publishable, Concat, TotalSize, WireSize;
    assert Concat(q.sent) + (q.filling + [m]) == (Concat(q.sent) + q.filling) + [m];
  }

  /** A datagram is sent before a frame that would not fit with it, and only then: with its header of twenty bytes and its
      checksum of four. */
  lemma PublishSends(p: Pub, msgType: byte, flags: u16, bytes: seq<byte>)
    ensures var q := Published(p, msgType, flags, Data(bytes));
            q.sent == if p.filling != [] && TotalSize(p.filling) + 20 + |bytes| + 4 > p.maxDatagram then p.sent + [p.filling] else p.sent
  {
    hide TotalSize;
  }

  lemma ResentByCollecting(p: Pub, from: u64, to: u64)
    ensures var n := |p.history|;
            var lo, hi := Max(from, Oldest(n, p.size)), Min(LastServed(n, from, to) + 1, n);
            Resent(p, from, to) == if lo < hi then p.history[lo..hi] else []
  {
    hide LastServed;
  }

  lemma ServedUpTo(n: nat, from: u64, to: u64)
    requires from <= to && from < n < 0x1_0000_0000_0000_0000
    ensures LastServed(n, from, to) == Min(Min(to, n - 1), from + REQUEST_LIMIT - 1)
  {
    hide Wrap;
  }

  /** A forward request inside the history: the frames sent and the numbers reported lost are exactly the
      requested numbers, capped at ten thousand, and each frame is the one published under its number. */
  lemma ResponseIsComplete(p: Pub, from: u64, to: u64)
    requires PubInv(p) && from <= to && from < |p.history| < 0x1_0000_0000_0000_0000
    ensures var last := Min(Min(to, |p.history| - 1), from + REQUEST_LIMIT - 1);
            var ms, r := Resent(p, from, to), ReceiptFor(p, from, to).body;
            && r.to == last
            && |ms| == r.sent && r.sent + r.unavailable == last - from + 1
            && (forall i :: 0 <= i < |ms| ==> ms[i] == p.history[from + r.unavailable + i] && ms[i].number == from + r.unavailable + i)
            && (r.unavailable > 0 <==> from < r.oldest)
            && r.oldest + p.size >= |p.history|
  {
    ResponseCounts(p, from, to);
    hide Wrap, LastServed, Publishable, Resent, ReceiptFor;
  }

  lemma ResponseCounts(p: Pub, from: u64, to: u64)
    requires from <= to && from < |p.history| < 0x1_0000_0000_0000_0000
    ensures var last := Min(Min(to, |p.history| - 1), from + REQUEST_LIMIT - 1);
            var ms, r := Resent(p, from, to), ReceiptFor(p, from, to).body;
            && r.Receipt? && r.to == last && |ms| == r.sent && r.sent + r.unavailable == last - from + 1
            && ms == p.history[from + r.unavailable..last + 1]
            && r.oldest == Oldest(|p.history|, p.size)
            && (r.unavailable > 0 <==> from < r.oldest)
  {
    hide Wrap, LastServed, Resent;
    ServedUpTo(|p.history|, from, to);
    ResentByCollecting(p, from, to);
  }

  /** A request that starts past the end of the history is answered with nothing sent and nothing lost. */
  lemma RequestPastTheEnd(p: Pub, from: u64, to: u64)
    requires PubInv(p) && from >= |p.history|
    ensures Resent(p, from, to) == [] && ReceiptFor(p, from, to).body.unavailable == 0
  {}

  /** A backward request is answered with nothing sent and nothing lost exactly when it is empty by one or starts past
      the end of the history. */
  lemma BackwardIsEmptyExactly(p: Pub, from: u64, to: u64)
    requires PubInv(p) && to < from && |p.history| + REQUEST_LIMIT < 0x1_0000_0000_0000_0000
    ensures Resent(p, from, to) == [] && ReceiptFor(p, from, to).body.unavailable == 0 <==> to + 1 == from || from >= |p.history|
  {
    if from >= |p.history| {
      RequestPastTheEnd(p, from, to);
    } else if to + 1 < from {
      BackwardRequest(p, from, to);
    }
  }

  /** Any other backward request is served as ten thousand numbers: frames sent and numbers reported lost are what the
      history has of them, each frame the original one, and the receipt names the last of the ten thousand. */
  lemma BackwardRequest(p: Pub, from: u64, to: u64)
    requires PubInv(p) && to + 1 < from < |p.history| && |p.history| + REQUEST_LIMIT < 0x1_0000_0000_0000_0000
    ensures var ms, r := Resent(p, from, to), ReceiptFor(p, from, to).body;
            && r.to == from + REQUEST_LIMIT - 1 && r.sent == |ms|
            && r.oldest == Oldest(|p.history|, p.size)
            && r.unavailable == Min(Max(r.oldest, from) - from, REQUEST_LIMIT)
            && r.sent + r.unavailable == Min(|p.history| - from, REQUEST_LIMIT)
            && ms == p.history[from + r.unavailable..from + r.unavailable + r.sent]
  {
    hide PubInv, ReceiptFor, Resent, Oldest;
    NewestIsHeld(p);
    BackwardReceipt(p, from, to);
    BackwardFrames(p, from, to);
    HeldPart(p.history, from, Oldest(|p.history|, p.size));
  }

  lemma NewestIsHeld(p: Pub)
    requires PubInv(p) && p.history != []
    ensures Oldest(|p.history|, p.size) < |p.history|
  {}

  lemma BackwardFrames(p: Pub, from: u64, to: u64)
    requires to + 1 < from < |p.history| && |p.history| + REQUEST_LIMIT < 0x1_0000_0000_0000_0000
    ensures var lo, hi := Max(from, Oldest(|p.history|, p.size)), Min(from + REQUEST_LIMIT, |p.history|);
            Resent(p, from, to) == if lo < hi then p.history[lo..hi] else []
  {
    BackwardServedUpTo(|p.history|, from, to);
    ResentByCollecting(p, from, to);
    hide *;
  }

  lemma BackwardReceipt(p: Pub, from: u64, to: u64)
    requires to + 1 < from < |p.history| && |p.history| + REQUEST_LIMIT < 0x1_0000_0000_0000_0000
    ensures var oldest := Oldest(|p.history|, p.size);
            ReceiptFor(p, from, to).body ==
              Receipt(from, from + REQUEST_LIMIT - 1, |Resent(p, from, to)|,
                      if from < oldest then Min(oldest, from + REQUEST_LIMIT) - from else 0, oldest, |p.history|)
  {
    BackwardServedUpTo(|p.history|, from, to);
    hide LastServed, Resent, Wrap;
  }

  /** Of ten thousand numbers from `from` on, those below `oldest` are lost and the others are as published. */
  lemma HeldPart(h: seq<Msg>, from: nat, oldest: nat)
    requires from < |h| && oldest < |h|
    ensures var lo, hi := Max(from, oldest), Min(from + REQUEST_LIMIT, |h|);
            var lost := Min(lo - from, REQUEST_LIMIT);
            var ms := if lo < hi then h[lo..hi] else [];
            && |ms| + lost == Min(|h| - from, REQUEST_LIMIT)
            && lost == (if from < oldest then Min(oldest, from + REQUEST_LIMIT) - from else 0)
            && ms == h[from + lost..from + lost + |ms|]
  {}

  lemma BackwardServedUpTo(n: nat, from: u64, to: u64)
    requires to + 1 < from < n && n + REQUEST_LIMIT < 0x1_0000_0000_0000_0000
    ensures LastServed(n, from, to) == from + REQUEST_LIMIT - 1
  {
    WrapNegative(to - from + 1);
    hide Wrap;
  }

  // A backward request at work: the ring holds one of three frames, and the numbers 2 to 0 are asked for.

  function Frame(n: nat): Msg { Msg(0, 0, n, Data([])) }

  const THREE_FRAMES: seq<Msg> := [Frame(0), Frame(1), Frame(2)]
  const AFTER_THREE: Pub := Pub(1, 1000, THREE_FRAMES, [], [[Frame(0)], [Frame(1)], [Frame(2)]])

  lemma ThreeInOrder()
    ensures Concat(AFTER_THREE.sent) == THREE_FRAMES
  {
    assert AFTER_THREE.sent[1..] == [[Frame(1)], [Frame(2)]];
    assert [[Frame(1)], [Frame(2)]][1..] == [[Frame(2)]];
    assert [[Frame(2)]][1..] == [];
  }

  lemma ThreePublished()
    ensures PubInv(AFTER_THREE)
  {
    ThreeInOrder();
    hide Concat, TotalSize, WireSize;
    assert forall n :: 0 <= n < 3 ==> THREE_FRAMES[n] == Frame(n) && Publishable(Frame(n));
  }

  /** It is not refused: the frame numbered 2 is sent, and the receipt names 10001 as the last number. */
  lemma BackwardIsServed()
    ensures PubInv(AFTER_THREE)
    ensures Response(AFTER_THREE, 2, 0) == [Frame(2), Msg(MSG_ACK, 0, 0, Receipt(2, 10001, 1, 0, 2, 3))]
  {
    ThreePublished();
    BackwardRequest(AFTER_THREE, 2, 0);
    hide Resent, LastServed, PubInv, Wrap;
    assert Resent(AFTER_THREE, 2, 0) == [Frame(2)];
  }

  lemma SnapshotGrows(ms: seq<Msg>, v: View, k: Key, value: Value)
    requires IsSnapshot(ms, v) && k !in v && KeyOf(value.msgType, value.body) == Some(k)
    ensures IsSnapshot(ms + [Msg(value.msgType, SNAPSHOT_FLAG, 0, value.body)], v[k := value])
  {
    hide KeyOf;
    KeyedMessage(value);
    ViewOfMore(ms, Msg(value.msgType, SNAPSHOT_FLAG, 0, value.body));
    assert |v[k := value]| == |v| + 1;
  }

  lemma KeyedMessage(v: Value)
    requires KeyOf(v.msgType, v.body).Some?
    ensures v.body.Data? && v.msgType != MSG_SNAPSHOT
  {}

  function Without(table: View, keys: set<Key>): View {
    table - keys
  }

  lemma WithoutFewer(table: View, keys: set<Key>, k: Key)
    requires k in keys && k in table
    ensures k !in Without(table, keys)
    ensures Without(table, keys - {k}) == Without(table, keys)[k := table[k]]
  {}

  lemma WithoutEnds(table: View)
    ensures Without(table, table.Keys) == map[] && Without(table, {}) == table
    ensures IsSnapshot([], map[])
  {}

  /** One flagged message for each cached value, in whatever order the table yields them. */
  method FlaggedValues(table: View) returns (out: seq<Msg>)
    requires forall k :: k in table ==> KeyOf(table[k].msgType, table[k].body) == Some(k)
    ensures IsSnapshot(out, table)
  {
    hide KeyOf, IsSnapshot, Without;
    WithoutEnds(table);
    out := [];
    var keys := table.Keys;
    while keys != {}
      invariant keys <= table.Keys
      invariant IsSnapshot(out, Without(table, keys))
      decreases keys
    {
      var k :| k in keys;
      WithoutFewer(table, keys, k);
      SnapshotGrows(out, Without(table, keys), k, table[k]);
      out := out + [Msg(table[k].msgType, SNAPSHOT_FLAG, 0, table[k].body)];
      keys := keys - {k};
    }
  }

  // ---- The publisher ----

  class Publisher {
    const ring: array<Msg>
    const maxDatagram: nat
    var nextSeq: nat
    var last: map<Key, Value>
    var dgram: seq<Msg>
    var dgramSize: nat
    var wire: seq<seq<Msg>>
    ghost var history: seq<Msg>

    /** Slot `s mod size` holds the frame numbered `s`, for every number not yet overwritten. */
    ghost predicate Valid()
      reads this, ring
    {
      && ring.Length > 0
      && nextSeq == |history| && last == ViewOf(history) && dgramSize == TotalSize(dgram)
      && PubInv(State())
      && forall s :: Oldest(nextSeq, ring.Length) <= s < nextSeq ==> ring[s % ring.Length] == history[s]
    }

    ghost function State(): Pub
      reads this
    {
      Pub(ring.Length, maxDatagram, history, dgram, wire)
    }

    constructor (size: nat, maxDatagram: nat)
      requires size > 0
      ensures Valid() && fresh(ring) && State() == Pub(size, maxDatagram, [], [], [])
    {
      ring := new Msg[size](_ => Msg(0, 0, 0, Data([])));
      this.maxDatagram := maxDatagram;
      nextSeq, last, dgram, dgramSize, wire, history := 0, map[], [], 0, [], [];
    }

    method OnFrame(msgType: byte, flags: u16, body: Body)
      requires Valid() && Publishable(Msg(msgType, flags, nextSeq, body))
      modifies this, ring
      ensures Valid() && State() == Published(old(State()), msgType, flags, body)
      ensures nextSeq == old(nextSeq) + 1
    {
      hide PubInv, Publishable, KeyOf, ViewOf, TotalSize, Seen;
      PublishKeepsInv(State(), msgType, flags, body);
      var m := Msg(msgType, flags, nextSeq, body);
      ViewOfMore(history, m);
      CacheLatest(m);
      StoreFrame(m);
      if dgram != [] && dgramSize + WireSize(m) > maxDatagram {
        SendDatagram();
      }
      AppendFrame(m);
    }

    method CacheLatest(m: Msg)
      modifies this`last
      ensures last == Seen(old(last), m)
    {
      var key := KeyOf(m.msgType, m.body);
      if key.Some? {
        last := last[key.value := Value(m.msgType, m.body)];
      }
    }

    method SendDatagram()
      modifies this`wire, this`dgram, this`dgramSize
      ensures wire == old(wire) + [old(dgram)] && dgram == [] && dgramSize == TotalSize([])
    {
      wire := wire + [dgram];
      dgram, dgramSize := [], 0;
    }

    method AppendFrame(m: Msg)
      requires dgramSize == TotalSize(dgram)
      modifies this`dgram, this`dgramSize
      ensures dgram == old(dgram) + [m] && dgramSize == TotalSize(dgram)
    {
      assert (dgram + [m])[..|dgram|] == dgram;
      dgram, dgramSize := dgram + [m], dgramSize + WireSize(m);
    }

    /** Overwrites the slot of the number that falls out of the ring. */
    method StoreFrame(m: Msg)
      requires ring.Length > 0 && nextSeq == |history| && m.number == nextSeq
      requires forall s :: Oldest(nextSeq, ring.Length) <= s < nextSeq ==> ring[s % ring.Length] == history[s]
      modifies this`nextSeq, this`history, ring
      ensures nextSeq == old(nextSeq) + 1 && history == old(history) + [m]
      ensures forall s :: Oldest(nextSeq, ring.Length) <= s < nextSeq ==> ring[s % ring.Length] == history[s]
    {
      forall s | Oldest(nextSeq + 1, ring.Length) <= s < nextSeq
        ensures s % ring.Length != nextSeq % ring.Length
      {
        SlotsDiffer(s, nextSeq, ring.Length);
      }
      ring[nextSeq % ring.Length] := m;
      nextSeq := nextSeq + 1;
      history := history + [m];
    }

    method FlushDatagram()
      requires Valid()
      modifies this
      ensures Valid() && State() == Flushed(old(State())) && nextSeq == old(nextSeq)
    {
      hide PubInv, ViewOf, TotalSize;
      FlushKeepsInv(State());
      if dgram == [] {
        return;
      }
      SendDatagram();
    }

    /** The snapshot: every latest value, then the number from which increments continue. */
    method OnSubscribe() returns (out: seq<Msg>)
      requires Valid()
      ensures |out| > 0 && IsSnapshot(out[..|out| - 1], ViewOf(history))
      ensures out[|out| - 1] == SnapshotEnd(|out| - 1, nextSeq)
    {
      ViewValues(history);
      hide PubInv, KeyOf, TotalSize;
      var values := FlaggedValues(last);
      out := values + [SnapshotEnd(|values|, nextSeq)];
      assert out[..|out| - 1] == values;
    }

    /** Reads frames out of the ring, oldest first, up to the last one published. */
    method Collect(lo: nat, top: nat) returns (out: seq<Msg>)
      requires Valid() && lo >= Oldest(nextSeq, ring.Length)
      ensures out == if lo < Min(top + 1, nextSeq) then history[lo..Min(top + 1, nextSeq)] else []
    {
      hide PubInv, ViewOf, TotalSize;
      out := [];
      var s := lo;
      while nextSeq > 0 && s <= top && s < nextSeq
        invariant lo <= s && (s > lo ==> s <= top + 1 && s <= nextSeq)
        invariant out == if lo < s then history[lo..s] else []
        decreases nextSeq - s
      {
        assert history[lo..s + 1] == history[lo..s] + [history[s]];
        out := out + [ring[s % ring.Length]];
        s := s + 1;
      }
    }

    /** The retransmission: frames read from the ring, then the receipt. */
    method OnRetrans(from: u64, to: u64) returns (out: seq<Msg>)
      requires Valid()
      ensures out == Response(State(), from, to)
    {
      hide PubInv, Wrap, ViewOf, TotalSize, Resent;
      var oldest := if nextSeq > ring.Length then nextSeq - ring.Length else 0;
      var top := Top(from, to);
      out := Collect(Max(from, oldest), top);
      assert out == Resent(State(), from, to) by { ResentByCollecting(State(), from, to); }
      var sent, stop: nat := |out|, top;
      var unavailable := if from < oldest then Wrap(Min(oldest, stop + 1) - from) else 0;
      out := out + [Msg(MSG_ACK, 0, 0, Receipt(from, top, sent, unavailable, oldest, nextSeq))];
    }

    /** Where the answer to a request stops. */
    method Top(from: u64, to: u64) returns (top: u64)
      requires nextSeq == |history|
      ensures top == LastServed(|history|, from, to)
    {
      hide Wrap;
      top := to;
      if to >= nextSeq {
        top := if nextSeq > 0 then nextSeq - 1 else 0;
      }
      if Wrap(top - from + 1) > REQUEST_LIMIT {
        top := Wrap(from + REQUEST_LIMIT - 1);
      }
    }
  }
}
