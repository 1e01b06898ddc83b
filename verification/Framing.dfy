/** MDFP/1 frames: the byte layout, the verdict on the front of a buffer, and what a corrupted frame looks like. */
module Framing {
  import opened Wrappers
  import opened Bytes
  import opened Layout
  import Crc32

  const MAGIC: seq<byte> := [77, 68, 70, 49]  // "MDF1"
  const VERSION: byte := 1

  datatype Frame = Frame(msgType: byte, seqNo: u64, flags: u16, payload: seq<byte>)

  datatype ProtocolError = PayloadTooLarge(size: nat)

  /** The checksum field's value for a frame body. */
  function Checksum(body: seq<byte>): (sum: nat)
    ensures sum < Pow256(4)
  {
    Widths();
    Crc32.Crc(Words(body), 0) as int
  }

  function Header(f: Frame): (h: seq<byte>)
    requires |f.payload| <= MAX_PAYLOAD
    ensures |h| == HEADER_SIZE
  {
    Widths();
    MAGIC + [VERSION, f.msgType] + ToBe(f.flags, 2) + ToBe(f.seqNo, 8) + ToBe(|f.payload|, 4)
  }

  function Body(f: Frame): seq<byte>
    requires |f.payload| <= MAX_PAYLOAD
  {
    Header(f) + f.payload
  }

  /** The bytes of a frame that is small enough. */
  function Wire(f: Frame): seq<byte>
    requires |f.payload| <= MAX_PAYLOAD
  {
    Body(f) + ToBe(Checksum(Body(f)), 4)
  }

  function Encode(f: Frame): Result<seq<byte>, ProtocolError> {
    if |f.payload| > MAX_PAYLOAD then Err(PayloadTooLarge(|f.payload|)) else Ok(Wire(f))
  }

  /** What the front of a buffer is: too short to tell, not a frame, a frame with a wrong checksum, or a frame. */
  datatype Verdict = Short | Bad | BadCrc | Good(frame: Frame, size: nat)

  function PayloadLength(b: seq<byte>): nat
    requires |b| >= HEADER_SIZE
  {
    Be(b[16..20])
  }

  function FrameAt(b: seq<byte>, length: nat): (f: Frame)
    requires |b| >= HEADER_SIZE + length
  {
    Widths();
    Frame(b[5], Be(b[8..16]), Be(b[6..8]), b[HEADER_SIZE..HEADER_SIZE + length])
  }

  function Judge(b: seq<byte>): Verdict {
    if |b| < HEADER_SIZE then Short
    else if b[..4] != MAGIC then Bad
    else
      var length := PayloadLength(b);
      if b[4] != VERSION || length > MAX_PAYLOAD then Bad
      else if |b| < HEADER_SIZE + length + CRC_SIZE then Short
      else if Be(b[HEADER_SIZE + length..HEADER_SIZE + length + CRC_SIZE]) != Checksum(b[..HEADER_SIZE + length]) then BadCrc
      else Good(FrameAt(b, length), HEADER_SIZE + length + CRC_SIZE)
  }

  /** A verdict other than Short does not depend on the bytes that arrive later. */
  lemma VerdictIsFinal(b: seq<byte>, more: seq<byte>)
    requires Judge(b) != Short
    ensures Judge(b + more) == Judge(b)
  {
    hide Checksum;
    var c := b + more;
    assert c[..4] == b[..4];
    assert c[16..20] == b[16..20];
    if Judge(b) != Bad {
      var length := PayloadLength(b);
      var end := HEADER_SIZE + length;
      assert c[end..end + CRC_SIZE] == b[end..end + CRC_SIZE];
      assert c[..end] == b[..end];
      assert c[8..16] == b[8..16] && c[6..8] == b[6..8] && c[HEADER_SIZE..end] == b[HEADER_SIZE..end];
    }
  }

  lemma HeaderFields(f: Frame, b: seq<byte>)
    requires |f.payload| <= MAX_PAYLOAD
    requires Header(f) <= b
    ensures b[..4] == MAGIC && b[4] == VERSION && b[5] == f.msgType
    ensures b[6..8] == ToBe(f.flags, 2) && b[8..16] == ToBe(f.seqNo, 8) && PayloadLength(b) == |f.payload|
  {
    Widths();
    var h := Header(f);
    assert forall i :: 0 <= i < HEADER_SIZE ==> b[i] == h[i];
    assert b[..4] == h[..4] == MAGIC;
    assert b[6..8] == h[6..8] == ToBe(f.flags, 2);
    assert b[8..16] == h[8..16] == ToBe(f.seqNo, 8);
    assert b[16..20] == h[16..20] == ToBe(|f.payload|, 4);
    BeOfToBe(|f.payload|, 4);
  }

  /** Round trip: an encoded frame, whatever follows it, is judged to be that frame. */
  lemma EncodedIsGood(f: Frame, more: seq<byte>)
    requires |f.payload| <= MAX_PAYLOAD
    ensures Judge(Wire(f) + more) == Good(f, |Wire(f)|)
  {
    hide Checksum;
    var b := Wire(f) + more;
    assert Header(f) <= b by { assert b == Header(f) + (f.payload + ToBe(Checksum(Body(f)), 4) + more); }
    HeaderFields(f, b);
    var end := HEADER_SIZE + |f.payload|;
    assert b[..end] == Body(f);
    assert b[end..end + CRC_SIZE] == ToBe(Checksum(Body(f)), 4);
    assert b[HEADER_SIZE..end] == f.payload;
    BeOfToBe(Checksum(Body(f)), 4);
    Widths();
    BeOfToBe(f.flags, 2);
    BeOfToBe(f.seqNo, 8);
  }

  /** The other way round: a buffer judged to be a frame begins with the encoding of that frame. */
  lemma GoodIsEncoded(b: seq<byte>)
    requires Judge(b).Good?
    ensures var f := Judge(b).frame;
            |f.payload| <= MAX_PAYLOAD && Judge(b).size == |Wire(f)| && Wire(f) <= b
  {
    hide Checksum;
    var length := PayloadLength(b);
    var f := FrameAt(b, length);
    var end := HEADER_SIZE + length;
    Widths();
    ToBeOfBe(b[6..8]);
    ToBeOfBe(b[8..16]);
    ToBeOfBe(b[16..20]);
    assert Header(f) == b[..HEADER_SIZE] by {
      assert b[..HEADER_SIZE] == b[..4] + [b[4], b[5]] + b[6..8] + b[8..16] + b[16..20];
    }
    assert Body(f) == b[..end];
    ToBeOfBe(b[end..end + CRC_SIZE]);
    assert b[..end + CRC_SIZE] == b[..end] + b[end..end + CRC_SIZE];
  }

  // ---- Corruption ----

  lemma ChecksumSeesBursts(a: seq<byte>, w: seq<byte>, v: seq<byte>, b: seq<byte>)
    requires |w| == |v| <= 4
    ensures Checksum(a + w + b) == Checksum(a + v + b) <==> w == v
  {
    WordsConcat(a + w, b);
    WordsConcat(a, w);
    WordsConcat(a + v, b);
    WordsConcat(a, v);
    if Checksum(a + w + b) == Checksum(a + v + b) {
      SameWord(Crc32.Crc(Words(a + w + b), 0), Crc32.Crc(Words(a + v + b), 0));
      Crc32.BurstDetected(Words(a), Words(w), Words(v), Words(b), 0);
      WordsInjective(w, v);
    }
  }

  lemma WordSurvives(x: bv32)
    ensures (x as int) as bv32 == x
  {}

  lemma SameWord(x: bv32, y: bv32)
    requires x as int == y as int
    ensures x == y
  {
    WordSurvives(x);
    WordSurvives(y);
  }

  /** A frame whose body is damaged within four bytes outside the length field is never taken for a frame:
      the parser either sees a broken header or counts a checksum error. */
  lemma DamagedBodyRejected(f: Frame, i: nat, v: seq<byte>, more: seq<byte>)
    requires |f.payload| <= MAX_PAYLOAD
    requires |v| <= 4 && i + |v| <= |Body(f)| && v != Body(f)[i..i + |v|]
    requires i + |v| <= 16 || i >= HEADER_SIZE
    ensures var b := Wire(f)[..i] + v + Wire(f)[i + |v|..] + more;
            Judge(b) == (if b[..4] != MAGIC || b[4] != VERSION then Bad else BadCrc)
  {
    hide Checksum;
    var good := Wire(f);
    var b := good[..i] + v + good[i + |v|..] + more;
    var end := |Body(f)|;
    HeaderFields(f, good);
    assert b[16..20] == good[16..20];
    assert good[..end] == Body(f);
    assert Body(f) == good[..i] + Body(f)[i..i + |v|] + Body(f)[i + |v|..];
    assert b[..end] == good[..i] + v + Body(f)[i + |v|..];
    ChecksumSeesBursts(good[..i], Body(f)[i..i + |v|], v, Body(f)[i + |v|..]);
    assert b[end..end + CRC_SIZE] == ToBe(Checksum(Body(f)), 4);
    BeOfToBe(Checksum(Body(f)), 4);
  }

  /** Any damage to the checksum field alone is counted as a checksum error. */
  lemma DamagedChecksumRejected(f: Frame, v: seq<byte>, more: seq<byte>)
    requires |f.payload| <= MAX_PAYLOAD
    requires |v| == CRC_SIZE && v != ToBe(Checksum(Body(f)), 4)
    ensures Judge(Body(f) + v + more) == BadCrc
  {
    hide Checksum;
    var b := Body(f) + v + more;
    var end := |Body(f)|;
    assert Header(f) <= b;
    HeaderFields(f, b);
    assert b[..end] == Body(f);
    assert b[end..end + CRC_SIZE] == v;
    ToBeOfBe(v);
  }
}
