/** The gateway's per-subscriber object, with its queue and its socket buffer. */
module GatewaySubscriber {
  import opened Wrappers
  import opened Bytes
  import opened Feed
  import opened Gateway
  import Publishing

  const COALESCE_BYTES: nat := 0x1_0000

  function MovedMany(q: Queue, n: nat): Queue
    decreases n
  {
    if n == 0 then q
    else
      var r := MovedMany(q, n - 1);
      if Backlog(r) > 0 then Moved(r) else r
  }

  /** The queue and the socket buffer in front of it: its size in bytes, how many of them are gone, the frames in
      it, and the frames sent. */
  datatype Outgoing = Outgoing(queue: Queue, size: nat, offset: nat, frames: nat, sent: nat)

  /** One place of the queue goes into the buffer; it may hold no frame any more. */
  function GatheredOne(o: Outgoing): Outgoing
    requires Backlog(o.queue) > 0
  {
    var q := Moved(o.queue);
    var n := |q.log.wire|;
    if n > |o.queue.log.wire| then o.(queue := q, size := o.size + WireSize(q.log.wire[n - 1]), frames := o.frames + 1)
    else o.(queue := q)
  }

  lemma MovedOne(q: Queue)
    requires Backlog(q) > 0
    ensures var r := Moved(q);
            Backlog(r) == Backlog(q) - 1 && r.closing == q.closing && |q.log.wire| <= |r.log.wire| <= |q.log.wire| + 1
  {}

  /** Waiting frames are gathered until the buffer is large enough. */
  function Gathered(o: Outgoing): Outgoing
    decreases Backlog(o.queue)
  {
    if Backlog(o.queue) > 0 && o.size < COALESCE_BYTES then
      MovedOne(o.queue);
      Gathered(GatheredOne(o))
    else o
  }

  function Refilled(o: Outgoing): Outgoing {
    if o.offset >= o.size then Gathered(o.(size := 0, offset := 0, frames := 0)) else o
  }

  function Taken(o: Outgoing, n: nat): Outgoing {
    if o.offset + n >= o.size then o.(offset := o.size, sent := o.sent + o.frames, frames := 0)
    else o.(offset := o.offset + n)
  }

  /** What the results of successive send calls do: a positive number of bytes taken, 0 for a full kernel buffer, a
      negative number for a broken connection. */
  function FlushedBy(o: Outgoing, grants: seq<int>): Outgoing
    decreases |grants|
  {
    var p := Refilled(o);
    if p.size == 0 || grants == [] || grants[0] == 0 then p
    else if grants[0] < 0 then p.(queue := p.queue.(closing := true))
    else FlushedBy(Taken(p, grants[0]), grants[1..])
  }

  ghost predicate Sound(o: Outgoing) {
    o.offset <= o.size && (o.offset == o.size ==> o.frames == 0)
  }

  lemma {:induction false} MovedFirst(q: Queue, k: nat)
    requires Backlog(q) > 0
    ensures MovedMany(Moved(q), k) == MovedMany(q, k + 1)
  {
    hide Moved;
    if k > 0 {
      MovedFirst(q, k - 1);
    } else {
      assert MovedMany(q, 0) == q;
    }
  }

  lemma {:induction false} MovedOn(q: Queue, j: nat, k: nat)
    ensures MovedMany(MovedMany(q, j), k) == MovedMany(q, j + k)
  {
    hide Moved;
    if k == 0 {
    } else {
      MovedOn(q, j, k - 1);
    }
  }

  lemma {:induction false} GatheringMoves(o: Outgoing) returns (k: nat)
    ensures var p := Gathered(o);
            && p.queue == MovedMany(o.queue, k) && p.queue.closing == o.queue.closing
            && p.offset == o.offset && p.sent == o.sent && p.size >= o.size
            && p.frames == o.frames + |p.queue.log.wire| - |o.queue.log.wire|
            && (p.size == o.size ==> p.frames == o.frames)
            && (Backlog(p.queue) > 0 ==> p.size >= 65536) && (p.queue != o.queue ==> o.size < 65536)
    decreases Backlog(o.queue)
  {
    hide Moved;
    k := 0;
    if Backlog(o.queue) > 0 && o.size < COALESCE_BYTES {
      MovedOne(o.queue);
      var j := GatheringMoves(GatheredOne(o));
      MovedFirst(o.queue, j);
      k := j + 1;
    }
  }

  lemma RefillMoves(o: Outgoing) returns (k: nat)
    requires Sound(o)
    ensures var p := Refilled(o);
            && Sound(p) && p.queue == MovedMany(o.queue, k) && p.queue.closing == o.queue.closing
            && p.sent + p.frames == o.sent + o.frames + |p.queue.log.wire| - |o.queue.log.wire|
            && (Backlog(p.queue) > 0 ==> p.offset < p.size)
            && (p.size == 0 || p.offset < p.size)
  {
    hide Gathered;
    k := 0;
    if o.offset >= o.size {
      k := GatheringMoves(o.(size := 0, offset := 0, frames := 0));
    }
  }

  /** Flushing only moves frames on, in order and without losing count, whatever the socket does; and it never leaves
      frames waiting while the socket could take more: then the buffer is not empty. */
  lemma {:induction false} FlushingMoves(o: Outgoing, grants: seq<int>) returns (k: nat)
    requires Sound(o)
    ensures var p := FlushedBy(o, grants);
            && Sound(p) && p.queue.(closing := o.queue.closing) == MovedMany(o.queue, k)
            && p.sent + p.frames == o.sent + o.frames + |p.queue.log.wire| - |o.queue.log.wire|
            && (Backlog(p.queue) > 0 ==> p.offset < p.size)
    decreases |grants|
  {
    hide Refilled, MovedMany;
    k := RefillMoves(o);
    var p := Refilled(o);
    if p.size != 0 && grants != [] && grants[0] > 0 {
      var j := FlushingMoves(Taken(p, grants[0]), grants[1..]);
      MovedOn(o.queue, k, j);
      k := k + j;
    }
  }

  /** The last `n` frames have `size` bytes together. */
  ghost predicate LastFrames(wire: seq<Msg>, n: nat, size: nat) {
    n <= |wire| && size == Publishing.TotalSize(wire[|wire| - n..])
  }

  /** While bytes are left in the buffer, it holds the last frames passed on that are not yet counted as sent. */
  ghost predicate BufferHolds(o: Outgoing) {
    o.offset < o.size ==> o.frames > 0 && LastFrames(o.queue.log.wire, o.frames, o.size)
  }

  lemma LastFramesGrow(wire: seq<Msg>, n: nat, size: nat, m: Msg)
    requires LastFrames(wire, n, size)
    ensures LastFrames(wire + [m], n + 1, size + WireSize(m))
  {
    assert (wire + [m])[|wire| - n..] == wire[|wire| - n..] + [m];
    Publishing.TotalOfMore(wire[|wire| - n..], m);
  }

  lemma NoFrames(wire: seq<Msg>, size: nat)
    ensures LastFrames(wire, 0, size) <==> size == 0
  {
    assert wire[|wire|..] == [];
  }

  lemma GatheredOneHolds(o: Outgoing)
    requires Backlog(o.queue) > 0 && LastFrames(o.queue.log.wire, o.frames, o.size)
    ensures var p := GatheredOne(o); LastFrames(p.queue.log.wire, p.frames, p.size) && p.offset == o.offset
  {
    MovedAppends(o.queue);
    var q, wire := Moved(o.queue), o.queue.log.wire;
    if |q.log.wire| > |wire| {
      var m := q.log.wire[|wire|];
      assert GatheredOne(o) == o.(queue := q, size := o.size + WireSize(m), frames := o.frames + 1);
      hide *;
      LastFramesGrow(wire, o.frames, o.size, m);
    } else {
      assert GatheredOne(o) == o.(queue := q);
      hide *;
    }
  }

  lemma MovedAppends(q: Queue)
    requires Backlog(q) > 0
    ensures var w, v := q.log.wire, Moved(q).log.wire;
            |w| <= |v| <= |w| + 1 && (|v| == |w| ==> v == w) && (|v| > |w| ==> v == w + [v[|w|]])
  {}

  lemma {:induction false} GatheringHolds(o: Outgoing)
    requires LastFrames(o.queue.log.wire, o.frames, o.size)
    ensures var p := Gathered(o); LastFrames(p.queue.log.wire, p.frames, p.size) && p.offset == o.offset
    decreases Backlog(o.queue)
  {
    hide Moved, GatheredOne, LastFrames;
    if Backlog(o.queue) > 0 && o.size < COALESCE_BYTES {
      MovedOne(o.queue);
      assert GatheredOne(o).queue == Moved(o.queue) by { GatheredQueue(o); }
      GatheredOneHolds(o);
      GatheringHolds(GatheredOne(o));
    }
  }

  lemma GatheredQueue(o: Outgoing)
    requires Backlog(o.queue) > 0
    ensures GatheredOne(o).queue == Moved(o.queue)
  {
    hide Moved;
  }

  lemma RefillHolds(o: Outgoing)
    requires BufferHolds(o)
    ensures BufferHolds(Refilled(o))
  {
    hide Gathered, LastFrames;
    if o.offset >= o.size {
      var e := o.(size := 0, offset := 0, frames := 0);
      NoFrames(e.queue.log.wire, 0);
      GatheringHolds(e);
      NoFrames(Gathered(e).queue.log.wire, Gathered(e).size);
    }
  }

  /** However many bytes the socket takes at a time: as long as bytes are left in the buffer, exactly the frames in it are
      not yet counted as sent. */
  lemma {:induction false} FlushingHolds(o: Outgoing, grants: seq<int>)
    requires BufferHolds(o)
    ensures BufferHolds(FlushedBy(o, grants))
    decreases |grants|
  {
    hide Refilled, LastFrames;
    RefillHolds(o);
    var p := Refilled(o);
    if p.size != 0 && grants != [] && grants[0] > 0 {
      FlushingHolds(Taken(p, grants[0]), grants[1..]);
    }
  }

  class Subscriber {
    const limits: Limits
    var symbols: Option<set<Key>>
    var conflate: bool
    var queue: seq<Msg>
    var keyQueue: seq<Item>
    var pending: map<Key, Msg>
    var outSeq: nat
    var dropped: nat
    var conflated: nat
    var closing: bool
    var sent: nat
    var bufferSize: nat    // bytes in the socket buffer, of which `offset` are gone
    var offset: nat
    var bufferFrames: nat
    ghost var log: Log

    ghost function State(): Queue
      reads this
    {
      Queue(conflate, symbols, queue, keyQueue, pending, outSeq, dropped, conflated, closing, log)
    }

    ghost function Out(): Outgoing
      reads this
    {
      Outgoing(State(), bufferSize, offset, bufferFrames, sent)
    }

    ghost predicate Valid()
      reads this
    {
      Sound(Out())
    }

    constructor (limits: Limits)
      ensures Valid() && State() == OPENED && this.limits == limits && sent == bufferFrames == 0
    {
      this.limits := limits;
      symbols, conflate, queue, keyQueue, pending := None, false, [], [], map[];
      outSeq, dropped, conflated, closing := 0, 0, 0, false;
      sent, bufferSize, offset, bufferFrames := 0, 0, 0, 0;
      log := OPENED.log;
    }

    /** One frame of the bus. */
    method Fanout(msgType: byte, flags: u16, body: Body)
      requires Valid()
      modifies this
      ensures Valid() && State() == Offered(old(State()), msgType, flags, body, limits)
      ensures sent == old(sent) && bufferFrames == old(bufferFrames)
    {
      hide KeyOf;
      var key := KeyOf(msgType, body);
      if closing || (key.Some? && !Wants(symbols, key.value)) {
        return;
      }
      var m := Msg(msgType, flags, outSeq, body);
      if conflate && key.Some? && key.value in pending {
        pending := pending[key.value := m];
        conflated := conflated + 1;
        log := log.(accepted := log.accepted + [m]);
        return;
      }
      if !conflate {
        outSeq := outSeq + 1;
      }
      Enqueue(m);
    }

    method Enqueue(m: Msg)
      requires !closing
      modifies this`queue, this`keyQueue, this`pending, this`dropped, this`closing, this`log
      ensures State() == Enqueued(old(State()), m, limits)
    {
      hide KeyOf;
      var size := if conflate then |keyQueue| else |queue|;
      if size >= limits.clientQueue {
        var close := DropOverflowed();
        if close {
          Refuse(m);
          return;
        }
      }
      Push(m);
    }

    ghost method Refuse(m: Msg)
      modifies this`log
      ensures State() == Refused(old(State()), m)
    {
      log := Gateway.Refused(State(), m).log;
    }

    method Push(m: Msg)
      modifies this`queue, this`keyQueue, this`pending, this`log
      ensures State() == Pushed(old(State()), m)
    {
      hide KeyOf;
      var key := KeyOfMsg(m);
      log := Gateway.Pushed(State(), m).log;
      if !conflate {
        queue := queue + [m];
      } else if key.Some? {
        pending := pending[key.value := m];
        keyQueue := keyQueue + [Keyed(key.value)];
      } else {
        keyQueue := keyQueue + [Keyless(m)];
      }
    }

    method DropOverflowed() returns (close: bool)
      requires !closing
      modifies this`queue, this`keyQueue, this`pending, this`dropped, this`closing, this`log
      ensures State() == DroppedOldest(old(State()), limits) && close == closing
    {
      if conflate {
        if keyQueue != [] {
          if keyQueue[0].Keyed? {
            pending := pending - {keyQueue[0].key};
            log := log.(stale := log.stale + {keyQueue[0].key});
          }
          keyQueue := keyQueue[1..];
        }
      } else if queue != [] {
        queue := queue[1..];
      }
      dropped := dropped + 1;
      close := dropped > limits.dropLimit;
      if close {
        closing := true;
      }
    }

    /** Sends as much as the socket takes; `grants` are the results of the successive send calls. */
    method Flush(grants: seq<int>)
      requires Valid()
      modifies this
      ensures Valid() && Out() == FlushedBy(old(Out()), grants)
    {
      hide Refilled, Taken;
      ghost var before := Out();
      var i := 0;
      while true
        invariant i <= |grants| && Valid()
        invariant FlushedBy(Out(), grants[i..]) == FlushedBy(before, grants)
        decreases |grants| - i
      {
        Refill();
        if bufferSize == 0 || i == |grants| || grants[i] == 0 {
          return;
        }
        var n := grants[i];
        assert grants[i..][1..] == grants[i + 1..];
        i := i + 1;
        if n < 0 {
          closing := true;
          return;
        }
        Sent(n);
      }
    }

    /** Once the buffer is gone it is filled again from the queue. */
    method Refill()
      requires Valid()
      modifies this
      ensures Valid() && Out() == Refilled(old(Out())) && (bufferSize == 0 || offset < bufferSize)
    {
      ghost var k := RefillMoves(Out());
      hide Gathered;
      if offset >= bufferSize {
        bufferSize, offset, bufferFrames := 0, 0, 0;
        Coalesce();
      }
    }

    /** The kernel took `n` bytes. */
    method Sent(n: nat)
      requires Valid() && offset < bufferSize
      modifies this`offset, this`sent, this`bufferFrames
      ensures Valid() && Out() == Taken(old(Out()), n)
    {
      offset := if n < bufferSize - offset then offset + n else bufferSize;
      if offset >= bufferSize {
        sent, bufferFrames := sent + bufferFrames, 0;
      }
    }

    /** Gathers waiting frames into the socket buffer. */
    method Coalesce()
      modifies this`queue, this`keyQueue, this`pending, this`outSeq, this`log, this`bufferSize, this`bufferFrames
      ensures Out() == Gathered(old(Out()))
    {
      hide Moved;
      ghost var before := Out();
      while (if conflate then |keyQueue| else |queue|) > 0 && bufferSize < COALESCE_BYTES
        invariant Gathered(Out()) == Gathered(before)
        decreases if conflate then |keyQueue| else |queue|
      {
        MovedOne(State());
        MoveFront();
      }
    }

    method MoveFront()
      requires Backlog(State()) > 0
      modifies this`queue, this`keyQueue, this`pending, this`outSeq, this`log, this`bufferSize, this`bufferFrames
      ensures Out() == GatheredOne(old(Out()))
    {
      if conflate {
        var item := keyQueue[0];
        keyQueue := keyQueue[1..];
        if item.Keyless? {
          Emit(item.msg.(number := outSeq));
          outSeq := outSeq + 1;
        } else if item.key in pending {
          Emit(pending[item.key].(number := outSeq));
          pending := pending - {item.key};
          outSeq := outSeq + 1;
        }
      } else {
        Emit(queue[0]);
        queue := queue[1..];
      }
    }

    method Emit(m: Msg)
      modifies this`log, this`bufferSize, this`bufferFrames
      ensures log == old(log).(wire := old(log).wire + [m])
      ensures bufferFrames == old(bufferFrames) + 1 && bufferSize == old(bufferSize) + WireSize(m)
    {
      log := log.(wire := log.wire + [m]);
      bufferSize := bufferSize + WireSize(m);
      bufferFrames := bufferFrames + 1;
    }

    /** A subscription request: a new filter, which no symbol or an empty list takes away, and perhaps a new mode. */
    method ApplySubscribe(wanted: Option<seq<Key>>, mode: Option<bool>)
      requires Valid()
      modifies this
      ensures Valid()
      ensures symbols.Some? <==> wanted.Some? && wanted.value != []
      ensures symbols.Some? ==> forall k :: k in symbols.value <==> k in wanted.value
      ensures var q := old(State()).(symbols := symbols);
              State() == if mode.Some? && mode.value != old(conflate)
                         then q.(conflate := mode.value, queue := [], keyQueue := [], pending := map[],
                                 log := Log([], [], {}, 0, q.outSeq, q.dropped, q.conflated))
                         else q
      ensures sent == old(sent) && bufferFrames == old(bufferFrames)
    {
      symbols := if wanted.Some? && wanted.value != [] then Some(set k | k in wanted.value) else None;
      if mode.Some? {
        SwitchMode(mode.value);
      }
    }

    method SwitchMode(toConflate: bool)
      requires Valid()
      modifies this
      ensures Valid() && State() == Switched(old(State()), toConflate)
      ensures sent == old(sent) && bufferFrames == old(bufferFrames)
    {
      if toConflate != conflate {
        queue, keyQueue, pending, conflate := [], [], map[], toConflate;
        log := Log([], [], {}, 0, outSeq, dropped, conflated);
      }
    }
  }
}
