/** The stream parser in its two implementations, and the receiver's gap detector. */
module FrameParsers {
  import opened Wrappers
  import opened Bytes
  import opened Framing
  import opened Layout
  import opened Parsing

  /** The Python parser: consumed bytes are cut from the front of the buffer at once. */
  class FrameParser {
    var buf: seq<byte>
    var resyncCount: nat
    var crcErrorCount: nat

    function State(): Parser
      reads this
    {
      Parser(buf, resyncCount, crcErrorCount)
    }

    constructor ()
      ensures State() == FRESH
    {
      buf, resyncCount, crcErrorCount := [], 0, 0;
    }

    method Feed(chunk: seq<byte>) returns (frames: seq<Frame>)
      modifies this
      ensures Output(State(), frames) == Parsing.Feed(old(State()), chunk)
    {
      hide Parsing.TryOne;
      buf := buf + chunk;
      frames := [];
      ghost var start := State();
      var status := Retry;
      while status != NeedMore
        invariant status == NeedMore ==> Drain(start) == Output(State(), frames)
        invariant status != NeedMore ==> Drain(start) == Output(Drain(State()).parser, frames + Drain(State()).frames)
        decreases status != NeedMore, |buf|
      {
        ghost var before := State();
        TryOneShrinks(before);
        status := TryOne();
        if status.FrameReady? {
          assert frames + Drain(before).frames == frames + [status.frame] + Drain(State()).frames;
          frames := frames + [status.frame];
        } else if status == NeedMore {
          assert frames + [] == frames;
        }
      }
    }

    method TryOne() returns (status: Status)
      modifies this
      ensures (status, State()) == Parsing.TryOne(old(State()))
    {
      hide Checksum;
      if |buf| < HEADER_SIZE {
        return NeedMore;
      }
      if buf[..4] != MAGIC {
        status := Resync();
        return;
      }
      var length := PayloadLength(buf);
      if buf[4] != VERSION || length > MAX_PAYLOAD {
        status := Resync();
        return;
      }
      var total := HEADER_SIZE + length + CRC_SIZE;
      if |buf| < total {
        return NeedMore;
      }
      if Be(buf[HEADER_SIZE + length..total]) != Checksum(buf[..HEADER_SIZE + length]) {
        crcErrorCount := crcErrorCount + 1;
        status := Resync();
        return;
      }
      status := FrameReady(FrameAt(buf, length));
      buf := buf[total..];
    }

    method Resync() returns (status: Status)
      modifies this
      ensures (status, State()) == Resynced(old(State()))
    {
      hide FindMagic;
      var idx := FindMagic(buf, 1);
      if idx == None {
        var keep := |MAGIC| - 1;
        buf := buf[if |buf| - keep > 0 then |buf| - keep else 0..];
      } else {
        buf := buf[idx.value..];
      }
      resyncCount := resyncCount + 1;
      status := if idx != None then Retry else NeedMore;
    }
  }

  lemma TryOneShrinks(p: Parser)
    ensures Parsing.TryOne(p).0 != NeedMore ==> |Parsing.TryOne(p).1.buf| < |p.buf|
  {
    hide Checksum;
  }

  /** The C++ parser: a read offset moves over the buffer, and the consumed front is erased only now and then. */
  class CppFrameParser {
    var buf: seq<byte>
    var rd: nat
    var resyncCount: nat
    var crcErrorCount: nat

    ghost predicate Valid()
      reads this
    {
      rd <= |buf|
    }

    /** The unread bytes are what the Python parser would hold. */
    function State(): Parser
      requires Valid()
      reads this
    {
      Parser(buf[rd..], resyncCount, crcErrorCount)
    }

    constructor ()
      ensures Valid() && State() == FRESH
    {
      buf, rd, resyncCount, crcErrorCount := [], 0, 0, 0;
    }

    method Feed(data: seq<byte>) returns (frames: seq<Frame>)
      requires Valid()
      modifies this
      ensures Valid() && Output(State(), frames) == Parsing.Feed(old(State()), data)
    {
      hide Parsing.TryOne;
      assert (buf + data)[rd..] == buf[rd..] + data;
      buf := buf + data;
      frames := [];
      ghost var start := State();
      var status := Retry;
      while status != NeedMore
        invariant Valid()
        invariant status == NeedMore ==> Drain(start) == Output(State(), frames)
        invariant status != NeedMore ==> Drain(start) == Output(Drain(State()).parser, frames + Drain(State()).frames)
        decreases status != NeedMore, |buf| - rd
      {
        ghost var before := State();
        TryOneShrinks(before);
        status := TryOne();
        if status.FrameReady? {
          var size := HEADER_SIZE + |status.frame.payload| + CRC_SIZE;
          assert buf[rd + size..] == buf[rd..][size..];
          rd := rd + size;
          assert frames + Drain(before).frames == frames + [status.frame] + Drain(State()).frames;
          frames := frames + [status.frame];
        } else if status == NeedMore {
          assert frames + [] == frames;
        }
      }
      Compact();
    }

    /** Looks at the unread bytes; a frame that is ready is consumed by the caller. */
    method TryOne() returns (status: Status)
      requires Valid()
      modifies this
      ensures Valid()
      ensures status.FrameReady? ==>
                var size := HEADER_SIZE + |status.frame.payload| + CRC_SIZE;
                && rd + size <= |buf| && State() == old(State())
                && Parsing.TryOne(old(State())) == (status, State().(buf := State().buf[size..]))
      ensures !status.FrameReady? ==> Parsing.TryOne(old(State())) == (status, State())
    {
      hide Checksum, FindMagic, Be;
      var avail := |buf| - rd;
      if avail < HEADER_SIZE {
        return NeedMore;
      }
      var h := buf[rd..];
      if h[..4] != MAGIC {
        status := Resync();
        return;
      }
      var length := PayloadLength(h);
      if h[4] != VERSION || length > MAX_PAYLOAD {
        status := Resync();
        return;
      }
      var total := HEADER_SIZE + length + CRC_SIZE;
      if avail < total {
        return NeedMore;
      }
      if Be(h[HEADER_SIZE + length..total]) != Checksum(h[..HEADER_SIZE + length]) {
        crcErrorCount := crcErrorCount + 1;
        status := Resync();
        return;
      }
      status := FrameReady(FrameAt(h, length));
    }

    method Resync() returns (status: Status)
      requires Valid()
      modifies this
      ensures Valid() && (status, State()) == Resynced(old(State()))
    {
      hide MagicAt;
      var avail := |buf| - rd;
      ghost var b := buf[rd..];
      var i := 1;
      while i + 4 <= avail && buf[rd + i..rd + i + 4] != MAGIC
        invariant FindMagic(b, i) == FindMagic(b, 1)
      {
        assert b[i..i + 4] == buf[rd + i..rd + i + 4];
        i := i + 1;
      }
      if i + 4 > avail {
        var keep := |MAGIC| - 1;
        if avail > keep {
          assert buf[rd + (avail - keep)..] == b[avail - keep..];
          rd := rd + (avail - keep);
        }
        status := NeedMore;
      } else {
        assert b[i..i + 4] == buf[rd + i..rd + i + 4];
        assert buf[rd + i..] == b[i..];
        rd := rd + i;
        status := Retry;
      }
      resyncCount := resyncCount + 1;
    }

    /** Erases consumed bytes when there are many of them; what is unread stays. */
    method Compact()
      requires Valid()
      modifies this
      ensures Valid() && State() == old(State())
      ensures rd < 4096 || rd * 2 < |buf|
    {
      if rd == 0 {
        return;
      }
      if rd == |buf| {
        buf, rd := [], 0;
        return;
      }
      if rd >= 4096 && rd * 2 >= |buf| {
        buf, rd := buf[rd..], 0;
      }
    }
  }

  // ---- Gap detection at the receiver ----

  datatype Tracker = Tracker(expected: Option<nat>, gapCount: nat, lost: nat, duplicates: nat)

  const UNTRACKED := Tracker(None, 0, 0, 0)

  function Observed(t: Tracker, s: nat): Tracker {
    if t.expected == None then t.(expected := Some(s + 1))
    else if s == t.expected.value then t.(expected := Some(s + 1))
    else if s < t.expected.value then t.(duplicates := t.duplicates + 1)
    else t.(expected := Some(s + 1), gapCount := t.gapCount + 1, lost := t.lost + (s - t.expected.value))
  }

  function ObservedAll(t: Tracker, ss: seq<nat>): Tracker
    decreases |ss|
  {
    if ss == [] then t else Observed(ObservedAll(t, ss[..|ss| - 1]), ss[|ss| - 1])
  }

  class SequenceTracker {
    var expected: Option<nat>
    var gapCount: nat
    var lostMessages: nat
    var duplicateCount: nat

    function State(): Tracker
      reads this
    {
      Tracker(expected, gapCount, lostMessages, duplicateCount)
    }

    constructor ()
      ensures State() == UNTRACKED
    {
      expected, gapCount, lostMessages, duplicateCount := None, 0, 0, 0;
    }

    method Observe(s: nat) returns (lost: nat)
      modifies this
      ensures State() == Observed(old(State()), s)
      ensures lostMessages == old(lostMessages) + lost
    {
      if expected == None {
        expected := Some(s + 1);
        return 0;
      }
      if s == expected.value {
        expected := Some(s + 1);
        return 0;
      }
      if s < expected.value {
        duplicateCount := duplicateCount + 1;
        return 0;
      }
      lost := s - expected.value;
      gapCount := gapCount + 1;
      lostMessages := lostMessages + lost;
      expected := Some(s + 1);
    }
  }

  /** The largest number seen. */
  function Highest(ss: seq<nat>): nat
    requires ss != []
  {
    if |ss| == 1 then ss[0] else
      var h := Highest(ss[..|ss| - 1]);
      if ss[|ss| - 1] > h then ss[|ss| - 1] else h
  }

  /** Whatever the order of arrival: the next number expected is one above the highest seen, and every number
      from the first seen up to it is accounted for as received in order or lost. */
  lemma {:induction false} NothingUncounted(ss: seq<nat>)
    requires ss != []
    ensures var t := ObservedAll(UNTRACKED, ss);
            && t.expected == Some(Highest(ss) + 1)
            && t.duplicates < |ss|
            && Highest(ss) + 1 == ss[0] + (|ss| - t.duplicates) + t.lost
    decreases |ss|
  {
    var front := ss[..|ss| - 1];
    if front == [] {
      assert ObservedAll(UNTRACKED, front) == UNTRACKED;
    } else {
      NothingUncounted(front);
    }
  }

  /** One look at the buffer counts a resynchronisation exactly when there is no frame in front, and a checksum error
      exactly when only the checksum was wrong. */
  lemma TryOneCounts(p: Parser)
    ensures var q := Parsing.TryOne(p).1;
            && q.resyncs == p.resyncs + (if Judge(p.buf) == Bad || Judge(p.buf) == BadCrc then 1 else 0)
            && q.crcErrors == p.crcErrors + (if Judge(p.buf) == BadCrc then 1 else 0)
  {
    hide Judge, FindMagic;
  }

  /** How often a number was more than one above all before it, and how often not above them. */
  function Jumps(ss: seq<nat>): nat {
    if |ss| <= 1 then 0
    else Jumps(ss[..|ss| - 1]) + if ss[|ss| - 1] > Highest(ss[..|ss| - 1]) + 1 then 1 else 0
  }

  function Repeats(ss: seq<nat>): nat {
    if |ss| <= 1 then 0
    else Repeats(ss[..|ss| - 1]) + if ss[|ss| - 1] <= Highest(ss[..|ss| - 1]) then 1 else 0
  }

  /** The gaps reported are the jumps, and the duplicates are the numbers not above all before them. */
  lemma {:induction false} GapsAreJumps(ss: seq<nat>)
    requires ss != []
    ensures var t := ObservedAll(UNTRACKED, ss); t.gapCount == Jumps(ss) && t.duplicates == Repeats(ss)
    decreases |ss|
  {
    var front := ss[..|ss| - 1];
    if front == [] {
      assert ObservedAll(UNTRACKED, front) == UNTRACKED;
    } else {
      GapsAreJumps(front);
      NothingUncounted(front);
    }
  }
}
