/** The resynchronising stream parser: what one `feed` does to the buffer, and the positional scan it amounts to. */
module Parsing {
  import opened Wrappers
  import opened Bytes
  import opened Framing
  import opened Layout
  import opened Sequences

  // ---- Reference: scan the whole stream, sliding one byte at a time ----

  datatype Hit = Hit(at: nat, size: nat, frame: Frame)

  datatype Scan = Scan(hits: seq<Hit>, crcErrors: nat, stop: nat)

  function ScanFrom(s: seq<byte>, p: nat): (r: Scan)
    requires p <= |s|
    ensures p <= r.stop <= |s|
    decreases |s| - p
  {
    match Judge(s[p..])
    case Short => Scan([], 0, p)
    case Bad => ScanFrom(s, p + 1)
    case BadCrc => var r := ScanFrom(s, p + 1); r.(crcErrors := r.crcErrors + 1)
    case Good(f, n) => var r := ScanFrom(s, p + n); r.(hits := [Hit(p, n, f)] + r.hits)
  }

  function Frames(hits: seq<Hit>): (fs: seq<Frame>)
    ensures |fs| == |hits|
  {
    seq(|hits|, i requires 0 <= i < |hits| => hits[i].frame)
  }

  ghost predicate MagicAt(s: seq<byte>, i: nat) {
    i + 4 <= |s| && s[i..i + 4] == MAGIC
  }

  // ---- One feed, step by step ----

  datatype Parser = Parser(buf: seq<byte>, resyncs: nat, crcErrors: nat)

  const FRESH := Parser([], 0, 0)

  datatype Status = FrameReady(frame: Frame) | NeedMore | Retry

  datatype Output = Output(parser: Parser, frames: seq<Frame>)

  /** The first place at or after `i` where the magic bytes stand. */
  function FindMagic(b: seq<byte>, i: nat): (r: Option<nat>)
    ensures r.Some? ==> i <= r.value && MagicAt(b, r.value) && forall j :: i <= j < r.value ==> !MagicAt(b, j)
    ensures r.None? ==> forall j :: i <= j ==> !MagicAt(b, j)
    decreases |b| - i
  {
    if i + 4 > |b| then None
    else if b[i..i + 4] == MAGIC then Some(i)
    else FindMagic(b, i + 1)
  }

  /** Jump to the next magic; when there is none keep the last three bytes. */
  function Resynced(p: Parser): (Status, Parser) {
    var q := p.(resyncs := p.resyncs + 1);
    match FindMagic(p.buf, 1)
    case Some(i) => (Retry, q.(buf := p.buf[i..]))
    case None => (NeedMore, q.(buf := p.buf[if |p.buf| > 3 then |p.buf| - 3 else 0..]))
  }

  function TryOne(p: Parser): (Status, Parser) {
    match Judge(p.buf)
    case Short => (NeedMore, p)
    case Bad => Resynced(p)
    case BadCrc => Resynced(p.(crcErrors := p.crcErrors + 1))
    case Good(f, n) => (FrameReady(f), p.(buf := p.buf[n..]))
  }

  function Drain(p: Parser): Output
    decreases |p.buf|
  {
    hide Checksum;
    var (st, q) := TryOne(p);
    match st
    case NeedMore => Output(q, [])
    case Retry => Drain(q)
    case FrameReady(f) => var o := Drain(q); Output(o.parser, [f] + o.frames)
  }

  function Feed(p: Parser, chunk: seq<byte>): Output {
    Drain(p.(buf := p.buf + chunk))
  }

  function FeedAll(p: Parser, chunks: seq<seq<byte>>): Output
    decreases |chunks|
  {
    if chunks == [] then Output(p, [])
    else
      var o := Feed(p, chunks[0]);
      var rest := FeedAll(o.parser, chunks[1..]);
      Output(rest.parser, o.frames + rest.frames)
  }

  // ---- Feeding is scanning ----

  /** Scanning `t` from `a` finds `frames` and `errors` and then goes on as from `b`. */
  ghost predicate Leads(t: seq<byte>, a: nat, b: nat, frames: seq<Frame>, errors: nat) {
    && a <= b <= |t|
    && var r, q := ScanFrom(t, a), ScanFrom(t, b);
    && Frames(r.hits) == frames + Frames(q.hits)
    && r.crcErrors == errors + q.crcErrors
    && (r.stop == q.stop || |t| - r.stop < HEADER_SIZE)
  }

  lemma LeadsOn(t: seq<byte>, a: nat, b: nat, c: nat, fs: seq<Frame>, gs: seq<Frame>, m: nat, n: nat)
    requires Leads(t, a, b, fs, m) && Leads(t, b, c, gs, n)
    ensures Leads(t, a, c, fs + gs, m + n)
  {}

  /** Positions without magic hold no frame and no checksum error. */
  lemma {:induction false} SkipDead(t: seq<byte>, p: nat, q: nat)
    requires p <= q <= |t| && (p == q || q + 3 <= |t|)
    requires forall i :: p <= i < q ==> !MagicAt(t, i)
    ensures Leads(t, p, q, [], 0)
    decreases q - p
  {
    hide Checksum;
    if p < q && |t| - p >= HEADER_SIZE {
      assert t[p..][..4] == t[p..p + 4];
      assert Judge(t[p..]) == Bad by { assert !MagicAt(t, p); }
      SkipDead(t, p + 1, q);
    }
  }

  lemma {:induction false} FramesConcat(a: seq<Hit>, b: seq<Hit>)
    ensures Frames(a + b) == Frames(a) + Frames(b)
  {}

  lemma ShortScan(t: seq<byte>, a: nat)
    requires a <= |t| && Judge(t[a..]) == Short
    ensures ScanFrom(t, a) == Scan([], 0, a)
  {
    hide Checksum;
  }

  lemma ScanBad(t: seq<byte>, a: nat)
    requires a <= |t| && (Judge(t[a..]) == Bad || Judge(t[a..]) == BadCrc)
    ensures a + HEADER_SIZE <= |t|
    ensures var r := ScanFrom(t, a + 1);
            ScanFrom(t, a) == r.(crcErrors := r.crcErrors + if Judge(t[a..]) == BadCrc then 1 else 0)
  {
    hide Checksum;
  }

  lemma ScanGood(t: seq<byte>, a: nat)
    requires a <= |t| && Judge(t[a..]).Good?
    ensures var v := Judge(t[a..]);
            && HEADER_SIZE <= v.size && a + v.size <= |t|
            && var r := ScanFrom(t, a + v.size);
            ScanFrom(t, a) == r.(hits := [Hit(a, v.size, v.frame)] + r.hits)
  {
    hide Checksum;
  }

  lemma ResyncLeads(p: Parser, s: seq<byte>, more: seq<byte>, a: nat)
    requires a <= |s| && p.buf == s[a..] && (Judge(p.buf) == Bad || Judge(p.buf) == BadCrc)
    ensures var q := Resynced(p).1;
            |q.buf| < |p.buf| && q.buf == s[|s| - |q.buf|..]
            && Leads(s + more, a + 1, |s| - |q.buf|, [], 0)
  {
    hide Judge, Leads, ScanFrom, Resynced, MagicAt;
    ScanBad(s, a);
    DeadUntil(p, s, more, a);
    SkipDead(s + more, a + 1, |s| - |Resynced(p).1.buf|);
  }

  lemma DeadUntil(p: Parser, s: seq<byte>, more: seq<byte>, a: nat)
    requires a + HEADER_SIZE <= |s| && p.buf == s[a..]
    ensures var q, t := Resynced(p).1, s + more;
            var b := |s| - |q.buf|;
            && a + 1 <= b && b + 3 <= |s| && q.buf == s[b..]
            && forall i :: a + 1 <= i < b ==> !MagicAt(t, i)
  {
    var q, t := Resynced(p).1, s + more;
    var b := |s| - |q.buf|;
    forall i | a + 1 <= i < b
      ensures !MagicAt(t, i)
    {
      assert !MagicAt(p.buf, i - a);
      assert p.buf[i - a..i - a + 4] == s[i..i + 4];
      assert t[i..i + 4] == s[i..i + 4];
    }
  }

  lemma BadLeads(t: seq<byte>, a: nat)
    requires a <= |t| && (Judge(t[a..]) == Bad || Judge(t[a..]) == BadCrc)
    ensures Leads(t, a, a + 1, [], if Judge(t[a..]) == BadCrc then 1 else 0)
  {
    hide Judge, ScanFrom;
    ScanBad(t, a);
  }

  lemma GoodLeads(t: seq<byte>, a: nat)
    requires a <= |t| && Judge(t[a..]).Good?
    ensures a + Judge(t[a..]).size <= |t|
    ensures Leads(t, a, a + Judge(t[a..]).size, [Judge(t[a..]).frame], 0)
  {
    hide Judge, ScanFrom;
    ScanGood(t, a);
    var v := Judge(t[a..]);
    FramesConcat([Hit(a, v.size, v.frame)], ScanFrom(t, a + v.size).hits);
  }

  lemma ResyncedIsShort(b: seq<byte>)
    ensures |b| <= 3 ==> Judge(b) == Short
    ensures forall r, c :: Resynced(Parser(b, r, c)).0 == NeedMore ==> Judge(Resynced(Parser(b, r, c)).1.buf) == Short
  {
    hide Checksum, FindMagic;
  }

  lemma ResyncedCounts(p: Parser, e: nat)
    ensures var (st, q) := Resynced(p.(crcErrors := p.crcErrors + e));
            !st.FrameReady? && q.crcErrors == p.crcErrors + e && Resynced(p.(crcErrors := p.crcErrors + e)).1.buf == Resynced(p).1.buf
  {}

  /** One step of the parser on the buffer `s[a..]` leads the scan of every longer stream. */
  lemma TryOneLeads(p: Parser, s: seq<byte>, more: seq<byte>, a: nat)
    requires a <= |s| && p.buf == s[a..]
    ensures var (st, q) := TryOne(p);
            && |q.buf| <= |p.buf| && q.buf == s[|s| - |q.buf|..]
            && q.crcErrors >= p.crcErrors
            && (st == NeedMore ==> Judge(q.buf) == Short)
            && (st != NeedMore ==> |q.buf| < |p.buf|)
            && Leads(s + more, a, |s| - |q.buf|, if st.FrameReady? then [st.frame] else [], q.crcErrors - p.crcErrors)
  {
    ResyncedIsShort(p.buf);
    hide Judge, Leads, ScanFrom, Resynced;
    var t := s + more;
    assert t[a..] == p.buf + more;
    var (st, q) := TryOne(p);
    var v := Judge(p.buf);
    if v == Short {
      StaysPut(t, a);
    } else {
      VerdictIsFinal(p.buf, more);
      if v.Good? {
        ScanGood(s, a);
        GoodLeads(t, a);
      } else {
        BadLeads(t, a);
        var e := if v == BadCrc then 1 else 0;
        ResyncedCounts(p, e);
        ResyncLeads(p.(crcErrors := p.crcErrors + e), s, more, a);
        LeadsOn(t, a, a + 1, |s| - |q.buf|, [], [], e, 0);
      }
    }
  }

  lemma StaysPut(t: seq<byte>, a: nat)
    requires a <= |t|
    ensures Leads(t, a, a, [], 0)
  {
    hide Checksum, Judge, ScanFrom;
  }

  /** One feed on the buffer `s[a..]` leads the scan of every longer stream to where the buffer then starts. */
  lemma {:induction false} DrainLeads(p: Parser, s: seq<byte>, more: seq<byte>, a: nat)
    requires a <= |s| && p.buf == s[a..]
    ensures var o := Drain(p);
            && |o.parser.buf| <= |p.buf| && o.parser.buf == s[|s| - |o.parser.buf|..]
            && Judge(o.parser.buf) == Short
            && o.parser.crcErrors >= p.crcErrors
            && Leads(s + more, a, |s| - |o.parser.buf|, o.frames, o.parser.crcErrors - p.crcErrors)
    decreases |p.buf|
  {
    hide Checksum, TryOne, Judge, Leads;
    var t := s + more;
    var (st, q) := TryOne(p);
    TryOneLeads(p, s, more, a);
    if st != NeedMore {
      var b := |s| - |q.buf|;
      DrainLeads(q, s, more, b);
      var o := Drain(q);
      var first := if st.FrameReady? then [st.frame] else [];
      LeadsOn(t, a, b, |s| - |o.parser.buf|, first, o.frames, q.crcErrors - p.crcErrors, o.parser.crcErrors - q.crcErrors);
      assert [] + o.frames == o.frames;
    }
  }

  lemma ConcatParts(s: seq<byte>, chunks: seq<seq<byte>>, more: seq<byte>)
    requires chunks != []
    ensures (s + chunks[0]) + Concat(chunks[1..]) == s + Concat(chunks)
    ensures (s + chunks[0]) + (Concat(chunks[1..]) + more) == s + Concat(chunks) + more
  {}

  lemma {:induction false} FeedAllLeads(p: Parser, s: seq<byte>, a: nat, chunks: seq<seq<byte>>, more: seq<byte>)
    requires a <= |s| && p.buf == s[a..] && Judge(p.buf) == Short
    ensures var o, t := FeedAll(p, chunks), s + Concat(chunks);
            && |o.parser.buf| <= |t| && o.parser.buf == t[|t| - |o.parser.buf|..]
            && Judge(o.parser.buf) == Short
            && o.parser.crcErrors >= p.crcErrors
            && Leads(t + more, a, |t| - |o.parser.buf|, o.frames, o.parser.crcErrors - p.crcErrors)
    decreases |chunks|
  {
    hide Judge, Leads, Drain;
    var o, t := FeedAll(p, chunks), s + Concat(chunks);
    if chunks == [] {
      StaysPut(t + more, a);
    } else {
      var s1, p1 := s + chunks[0], p.(buf := p.buf + chunks[0]);
      assert p1.buf == s1[a..];
      var o1, rest := Drain(p1), Concat(chunks[1..]) + more;
      DrainLeads(p1, s1, rest, a);
      var b := |s1| - |o1.parser.buf|;
      FeedAllLeads(o1.parser, s1, b, chunks[1..], more);
      ConcatParts(s, chunks, more);
      var o2 := FeedAll(o1.parser, chunks[1..]);
      LeadsOn(t + more, a, b, |t| - |o.parser.buf|, o1.frames, o2.frames,
              o1.parser.crcErrors - p.crcErrors, o2.parser.crcErrors - o1.parser.crcErrors);
    }
  }

  /** The frames emitted and the checksum errors counted depend on the bytes received, not on how they were
      cut into chunks: they are what one scan of the concatenated stream finds. */
  lemma ChunkingIsIrrelevant(chunks: seq<seq<byte>>)
    ensures var o, r := FeedAll(FRESH, chunks), ScanFrom(Concat(chunks), 0);
            o.frames == Frames(r.hits) && o.parser.crcErrors == r.crcErrors
  {
    hide Checksum;
    FeedAllLeads(FRESH, [], 0, chunks, []);
    var t := Concat(chunks);
    assert [] + t == t && t + [] == t;
  }

  /** What the parser still holds is the end of the stream, and less than one maximal frame. */
  lemma LeftoverIsBounded(chunks: seq<seq<byte>>)
    ensures var b := FeedAll(FRESH, chunks).parser.buf;
            && |b| <= |Concat(chunks)| && b == Concat(chunks)[|Concat(chunks)| - |b|..]
            && |b| < HEADER_SIZE + MAX_PAYLOAD + CRC_SIZE
  {
    hide Checksum;
    FeedAllLeads(FRESH, [], 0, chunks, []);
    assert [] + Concat(chunks) == Concat(chunks);
  }

  // ---- No valid frame is skipped ----

  ghost predicate Covered(hits: seq<Hit>, p: nat) {
    exists h :: h in hits && h.at <= p < h.at + h.size
  }

  lemma {:induction false} ScanCovers(s: seq<byte>, a: nat, p: nat)
    requires a <= p <= |s| && Judge(s[p..]).Good?
    ensures p >= ScanFrom(s, a).stop || Covered(ScanFrom(s, a).hits, p)
    decreases p - a
  {
    hide Judge, ScanFrom;
    var v := Judge(s[a..]);
    if v == Short {
      ShortScan(s, a);
    } else if v.Good? {
      ScanGood(s, a);
      var rest := ScanFrom(s, a + v.size).hits;
      var h := Hit(a, v.size, v.frame);
      assert ([h] + rest)[0] == h;
      if a + v.size <= p {
        ScanCovers(s, a + v.size, p);
        CoveredMore(h, rest, p);
      }
    } else {
      ScanBad(s, a);
      if a < p {
        ScanCovers(s, a + 1, p);
      }
    }
  }

  lemma CoveredMore(h: Hit, rest: seq<Hit>, p: nat)
    ensures Covered(rest, p) ==> Covered([h] + rest, p)
  {
    if Covered(rest, p) {
      var k :| k in rest && k.at <= p < k.at + k.size;
      assert k in [h] + rest;
    }
  }

  /** A complete valid frame anywhere in the stream was emitted, lies inside an emitted frame, or lies in the
      bytes the parser still holds while it waits for the rest of an earlier header's frame. */
  lemma NoFrameSkipped(chunks: seq<seq<byte>>, p: nat)
    requires p <= |Concat(chunks)| && Judge(Concat(chunks)[p..]).Good?
    ensures var o, t := FeedAll(FRESH, chunks), Concat(chunks);
            && o.frames == Frames(ScanFrom(t, 0).hits)
            && (Covered(ScanFrom(t, 0).hits, p) || p >= |t| - |o.parser.buf|)
  {
    var o, t := FeedAll(FRESH, chunks), Concat(chunks);
    hide Judge, ScanFrom, FeedAll, Covered;
    ScanGood(t, p);
    EmptyIsShort();
    FeedAllLeads(FRESH, [], 0, chunks, []);
    assert [] + t == t && t + [] == t;
    ShortScan(t, |t| - |o.parser.buf|);
    ScanCovers(t, 0, p);
  }

  function WireAll(fs: seq<Frame>): seq<byte>
    requires forall f :: f in fs ==> |f.payload| <= MAX_PAYLOAD
  {
    if fs == [] then [] else Wire(fs[0]) + WireAll(fs[1..])
  }

  lemma EmptyIsShort()
    ensures Judge([]) == Short
  {}

  lemma {:induction false} ScanOfWire(s: seq<byte>, p: nat, fs: seq<Frame>)
    requires forall f :: f in fs ==> |f.payload| <= MAX_PAYLOAD
    requires p <= |s| && s[p..] == WireAll(fs)
    ensures var r := ScanFrom(s, p); Frames(r.hits) == fs && r.crcErrors == 0 && r.stop == |s|
    decreases |fs|
  {
    hide Checksum, Wire, Judge, ScanFrom;
    if fs == [] {
      EmptyIsShort();
      ShortScan(s, p);
    } else {
      EncodedIsGood(fs[0], WireAll(fs[1..]));
      var n := |Wire(fs[0])|;
      ScanGood(s, p);
      assert s[p + n..] == WireAll(fs[1..]);
      ScanOfWire(s, p + n, fs[1..]);
      FramesConcat([Hit(p, n, fs[0])], ScanFrom(s, p + n).hits);
      assert fs == [fs[0]] + fs[1..];
    }
  }

  /** The false frames before `q`: headers that are complete and whose checksum is wrong, up to a header that
      waits for more than there is. */
  function FalseFrames(t: seq<byte>, p: nat, q: nat): nat
    requires p <= q <= |t|
    decreases q - p
  {
    if p == q || Judge(t[p..]) == Short then 0
    else (if Judge(t[p..]) == BadCrc then 1 else 0) + FalseFrames(t, p + 1, q)
  }

  lemma {:induction false} ScanOfGarbage(t: seq<byte>, p: nat, g: nat)
    requires p <= g <= |t|
    requires forall i :: p <= i < g ==> !Judge(t[i..]).Good?
    requires (forall i :: p <= i < g ==> Judge(t[i..]) != Short) || ScanFrom(t, g) == Scan([], 0, g)
    ensures ScanFrom(t, p).hits == ScanFrom(t, g).hits
    ensures ScanFrom(t, p).crcErrors == ScanFrom(t, g).crcErrors + FalseFrames(t, p, g)
    decreases g - p
  {
    hide Judge, ScanFrom;
    if p == g {
    } else {
      if Judge(t[p..]) == Short {
        ShortScan(t, p);
      } else {
        ScanBad(t, p);
        ScanOfGarbage(t, p + 1, g);
      }
    }
  }

  /** Round trip with recovery: after any garbage, false headers and false frames included, in which no position passes
      for a frame or (when frames follow) waits for bytes that are not there, and however the bytes are cut, the parser
      emits exactly the frames that were encoded, and counts one checksum error for each false frame. */
  lemma GarbageThenFrames(chunks: seq<seq<byte>>, garbage: seq<byte>, fs: seq<Frame>)
    requires forall f :: f in fs ==> |f.payload| <= MAX_PAYLOAD
    requires Concat(chunks) == garbage + WireAll(fs)
    requires forall i :: 0 <= i < |garbage| ==> !Judge(Concat(chunks)[i..]).Good?
    requires fs != [] ==> forall i :: 0 <= i < |garbage| ==> Judge(Concat(chunks)[i..]) != Short
    ensures FeedAll(FRESH, chunks).frames == fs
    ensures FeedAll(FRESH, chunks).parser.crcErrors == FalseFrames(Concat(chunks), 0, |garbage|)
  {
    hide Checksum, Wire, Judge, ScanFrom, FeedAll;
    var t := Concat(chunks);
    var g := |garbage|;
    ChunkingIsIrrelevant(chunks);
    assert t[g..] == WireAll(fs);
    ScanOfWire(t, g, fs);
    if fs == [] {
      EmptyIsShort();
      ShortScan(t, g);
    }
    ScanOfGarbage(t, 0, g);
  }

  /** Garbage in which no magic starts is such garbage, and holds no false frame. */
  lemma NoMagicIsGarbage(garbage: seq<byte>, fs: seq<Frame>)
    requires forall f :: f in fs ==> |f.payload| <= MAX_PAYLOAD
    requires forall i :: 0 <= i < |garbage| ==> !MagicAt(garbage + WireAll(fs), i)
    ensures var t := garbage + WireAll(fs);
            && (forall i :: 0 <= i < |garbage| ==> Judge(t[i..]) == Short || Judge(t[i..]) == Bad)
            && (fs != [] ==> forall i :: 0 <= i < |garbage| ==> Judge(t[i..]) == Bad)
            && FalseFrames(t, 0, |garbage|) == 0
  {
    hide Checksum, Wire;
    var t := garbage + WireAll(fs);
    if fs != [] {
      WireSize(fs[0]);
    }
    forall i | 0 <= i < |garbage|
      ensures Judge(t[i..]) == (if |t| - i < HEADER_SIZE then Short else Bad)
    {
      assert !MagicAt(t, i);
      assert |t| - i >= HEADER_SIZE ==> t[i..][..4] == t[i..i + 4];
    }
    hide Judge;
    NoFalseFrames(t, 0, |garbage|);
  }

  lemma {:induction false} NoFalseFrames(t: seq<byte>, p: nat, q: nat)
    requires p <= q <= |t| && forall i :: p <= i < q ==> Judge(t[i..]) == Short || Judge(t[i..]) == Bad
    ensures FalseFrames(t, p, q) == 0
    decreases q - p
  {
    hide Judge;
    if p == q {
    } else {
      NoFalseFrames(t, p + 1, q);
    }
  }

  lemma WireSize(f: Frame)
    requires |f.payload| <= MAX_PAYLOAD
    ensures |Wire(f)| == HEADER_SIZE + |f.payload| + CRC_SIZE
  {
    hide Checksum;
  }
}
