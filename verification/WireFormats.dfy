/** The formats down to the byte: frames, their checksum, feed keys and WebSocket frames, in numbers. */
module WireFormats {
  import opened Wrappers
  import opened Bytes
  import opened Framing
  import Crc32
  import W = WebSocket
  import WM = WebSocketMessages

  // ---- Network byte order ----

  /** The numbers in two, four and eight bytes, the first the most significant. */
  function Value2(a: int, b: int): int { a * 0x100 + b }

  function Value4(a: int, b: int, c: int, d: int): int { a * 0x100_0000 + b * 0x1_0000 + c * 0x100 + d }

  function Value8(s: seq<byte>): int
    requires |s| == 8
  {
    Value4(s[0], s[1], s[2], s[3]) * 0x1_0000_0000 + Value4(s[4], s[5], s[6], s[7])
  }

  lemma BeOfTwo(s: seq<byte>)
    requires |s| == 2
    ensures Be(s) == Value2(s[0], s[1])
  {
    assert s[..1][..0] == [];
  }

  lemma BeOfFour(s: seq<byte>)
    requires |s| == 4
    ensures Be(s) == Value4(s[0], s[1], s[2], s[3])
  {
    BeOfTwo(s[..2]);
    assert s[..3][..2] == s[..2];
    assert Be(s[..3]) == Be(s[..2]) * 256 + s[2];
  }

  lemma BeOfEight(s: seq<byte>)
    requires |s| == 8
    ensures Be(s) == Value8(s)
  {
    BeOfFour(s[..4]);
    assert s[..5][..4] == s[..4] && s[..6][..5] == s[..5] && s[..7][..6] == s[..6];
    assert Be(s[..5]) == Be(s[..4]) * 256 + s[4];
    assert Be(s[..6]) == Be(s[..5]) * 256 + s[5];
    assert Be(s[..7]) == Be(s[..6]) * 256 + s[6];
  }

  lemma FieldReads(v: nat, n: nat)
    requires v < Pow256(n)
    ensures Be(ToBe(v, n)) == v
  {
    BeOfToBe(v, n);
  }

  // ---- Frames ----

  /** A frame on the wire: "MDF1", version 1, the type, flags, number and length in network order, the payload, and the
      CRC-32 of all that in network order. */
  lemma FrameBytes(f: Frame)
    requires |f.payload| <= 0x10_0000
    ensures var w, n := Wire(f), |f.payload|;
            && |w| == 24 + n
            && w[0] == 77 && w[1] == 68 && w[2] == 70 && w[3] == 49 && w[4] == 1 && w[5] == f.msgType
            && Value2(w[6], w[7]) == f.flags
            && Value8(w[8..16]) == f.seqNo
            && Value4(w[16], w[17], w[18], w[19]) == n
            && w[20..20 + n] == f.payload
            && Value4(w[20 + n], w[21 + n], w[22 + n], w[23 + n]) ==
               Crc32.Crc(Words(w[..20 + n]), 0) as int
  {
    Widths();
    var w, h, n := Wire(f), Header(f), |f.payload|;
    FieldReads(f.flags, 2);
    FieldReads(f.seqNo, 8);
    FieldReads(n, 4);
    FieldReads(Checksum(Body(f)), 4);
    var flags, number, size, sum := ToBe(f.flags, 2), ToBe(f.seqNo, 8), ToBe(n, 4), ToBe(Checksum(Body(f)), 4);
    BeOfTwo(flags);
    BeOfEight(number);
    BeOfFour(size);
    BeOfFour(sum);
    assert h == MAGIC + [VERSION, f.msgType] + flags + number + size;
    assert w == h + f.payload + sum;
    hide Be, ToBe, Checksum, Pow256;
    FrameParts(f, h, flags, number, size, sum);
    assert w[..20 + n] == Body(f);
    ChecksumIs(Body(f));
  }

  lemma ChecksumIs(body: seq<byte>)
    ensures Checksum(body) == Crc32.Crc(Words(body), 0) as int
  {}

  lemma FrameParts(f: Frame, h: seq<byte>, flags: seq<byte>, number: seq<byte>, size: seq<byte>, sum: seq<byte>)
    requires |flags| == 2 && |number| == 8 && |size| == 4 && |sum| == 4
    requires h == MAGIC + [VERSION, f.msgType] + flags + number + size
    ensures var w, n := h + f.payload + sum, |f.payload|;
            && |h| == 20 && |w| == 24 + n
            && w[0] == 77 && w[1] == 68 && w[2] == 70 && w[3] == 49 && w[4] == 1 && w[5] == f.msgType
            && w[6] == flags[0] && w[7] == flags[1]
            && w[8..16] == number
            && (forall i :: 0 <= i < 4 ==> w[16 + i] == size[i])
            && w[20..20 + n] == f.payload && w[..20 + n] == h + f.payload
            && (forall i :: 0 <= i < 4 ==> w[20 + n + i] == sum[i])
  {}

  /** What the encoder refuses: a payload over one mebibyte. */
  lemma EncoderRefuses(f: Frame)
    ensures Encode(f) == if |f.payload| > 1_048_576 then Err(PayloadTooLarge(|f.payload|)) else Ok(Wire(f))
  {}

  /** What the front of a buffer may be: undecided with less than a header, or a good header and not all the rest; no
      frame with any other first bytes than "MDF1" and 1, or a length over one mebibyte. */
  lemma VerdictMeans(b: seq<byte>)
    ensures |b| < 20 ==> Judge(b) == Short
    ensures |b| >= 20 ==>
              var length := Value4(b[16], b[17], b[18], b[19]);
              && (Judge(b) == Bad <==> b[..5] != [77, 68, 70, 49, 1] || length > 1_048_576)
              && (Judge(b) == Short <==> Judge(b) != Bad && |b| < 24 + length)
  {
    if |b| >= 20 {
      BeOfFour(b[16..20]);
      hide Checksum, Be;
      assert b[..5] == b[..4] + [b[4]];
      assert b[..5] == [77, 68, 70, 49, 1] ==> b[..4] == b[..5][..4] && b[4] == b[..5][4];
    }
  }

  // ---- The checksum ----

  lemma FirstDigits()
    ensures Crc32.Crc([0x31], 0x00000000) == 0x83DCEFB7
    ensures Crc32.Crc([0x32], 0x83DCEFB7) == 0x4F5344CD
    ensures Crc32.Crc([0x33], 0x4F5344CD) == 0x884863D2
  {}

  lemma MiddleDigits()
    ensures Crc32.Crc([0x34], 0x884863D2) == 0x9BE3E0A3
    ensures Crc32.Crc([0x35], 0x9BE3E0A3) == 0xCBF53A1C
    ensures Crc32.Crc([0x36], 0xCBF53A1C) == 0x0972D361
  {}

  lemma LastDigits()
    ensures Crc32.Crc([0x37], 0x0972D361) == 0x5003699F
    ensures Crc32.Crc([0x38], 0x5003699F) == 0x9AE0DAAF
    ensures Crc32.Crc([0x39], 0x9AE0DAAF) == 0xCBF43926
  {}

  /** The checksum of the digits one to nine is the one by which this CRC-32 is known. */
  lemma CheckValue()
    ensures Crc32.Crc([0x31, 0x32, 0x33, 0x34, 0x35, 0x36, 0x37, 0x38, 0x39], 0) == 0xCBF43926
  {
    FirstDigits();
    MiddleDigits();
    LastDigits();
    hide Crc32.Crc;
    Crc32.CrcChains([0x31], [0x32], 0);
    Crc32.CrcChains([0x31, 0x32], [0x33], 0);
    Crc32.CrcChains([0x31, 0x32, 0x33], [0x34], 0);
    Crc32.CrcChains([0x31, 0x32, 0x33, 0x34], [0x35], 0);
    Crc32.CrcChains([0x31, 0x32, 0x33, 0x34, 0x35], [0x36], 0);
    Crc32.CrcChains([0x31, 0x32, 0x33, 0x34, 0x35, 0x36], [0x37], 0);
    Crc32.CrcChains([0x31, 0x32, 0x33, 0x34, 0x35, 0x36, 0x37], [0x38], 0);
    Crc32.CrcChains([0x31, 0x32, 0x33, 0x34, 0x35, 0x36, 0x37, 0x38], [0x39], 0);
    assert [0x31 as bv8] + [0x32] == [0x31, 0x32] && [0x31 as bv8, 0x32] + [0x33] == [0x31, 0x32, 0x33];
    assert [0x31 as bv8, 0x32, 0x33] + [0x34] == [0x31, 0x32, 0x33, 0x34];
    assert [0x31 as bv8, 0x32, 0x33, 0x34] + [0x35] == [0x31, 0x32, 0x33, 0x34, 0x35];
    assert [0x31 as bv8, 0x32, 0x33, 0x34, 0x35] + [0x36] == [0x31, 0x32, 0x33, 0x34, 0x35, 0x36];
    assert [0x31 as bv8, 0x32, 0x33, 0x34, 0x35, 0x36] + [0x37] == [0x31, 0x32, 0x33, 0x34, 0x35, 0x36, 0x37];
    assert [0x31 as bv8, 0x32, 0x33, 0x34, 0x35, 0x36, 0x37] + [0x38] == [0x31, 0x32, 0x33, 0x34, 0x35, 0x36, 0x37, 0x38];
    assert [0x31 as bv8, 0x32, 0x33, 0x34, 0x35, 0x36, 0x37, 0x38] + [0x39] == [0x31, 0x32, 0x33, 0x34, 0x35, 0x36, 0x37, 0x38, 0x39];
  }

  // ---- WebSocket frames ----

  /** The head of a frame: the final bit, reserved bits and opcode; the mask bit and the length in one of three forms. */
  lemma HeadBytes(f: W.Frame, key: Option<W.Key>)
    requires W.Writable(f)
    ensures var w, n, mask := W.Wire(f, key), |f.core.payload|, if key.Some? then 128 else 0;
            && |w| >= 2 && w[0] == (if f.core.fin then 128 else 0) + 16 * f.reserved + f.core.op
            && (f.form == W.Short ==> n < 126 && w[1] == mask + n)
            && (f.form == W.Medium ==> |w| >= 4 && w[1] == mask + 126 && Value2(w[2], w[3]) == n)
            && (f.form == W.Long ==>
                  && |w| >= 10 && w[1] == mask + 127
                  && Value8(w[2..10]) == n)
  {
    Widths();
    var n := |f.core.payload|;
    if f.form == W.Medium {
      FieldReads(n, 2);
      BeOfTwo(ToBe(n, 2));
    } else if f.form == W.Long {
      FieldReads(n, 8);
      BeOfEight(ToBe(n, 8));
    }
    hide Be, ToBe, Pow256, W.Masked;
  }

  /** After the head comes the key, if there is one, and the payload, each byte combined with the key's in turn. */
  lemma PayloadBytes(f: W.Frame, key: Option<W.Key>)
    requires W.Writable(f)
    ensures var w, n, at := W.Wire(f, key), |f.core.payload|, match f.form case Short => 2 case Medium => 4 case Long => 10;
            && |w| == at + (if key.Some? then 4 else 0) + n
            && (key.None? ==> w[at..] == f.core.payload)
            && (key.Some? ==>
                  && w[at..at + 4] == key.value
                  && forall i :: 0 <= i < n ==> w[at + 4 + i] == XorByte(f.core.payload[i], key.value[i % 4]))
  {
    hide ToBe, XorByte;
    var head := W.Head(f, key.Some?);
    var at := match f.form case Short => 2 case Medium => 4 case Long => 10;
    assert |head| == at;
    hide W.Head;
    var w := W.Wire(f, key);
    if key.Some? {
      assert w[at..at + 4] == key.value;
      forall i | 0 <= i < |f.core.payload|
        ensures w[at + 4 + i] == XorByte(f.core.payload[i], key.value[i % 4])
      {
        assert w[at + 4 + i] == W.Masked(f.core.payload, key.value)[i];
      }
    }
  }

  /** A whole frame takes the shortest form: two, four or ten bytes of head. */
  lemma WholeIsShortest(op: W.Opcode, payload: seq<byte>, key: Option<W.Key>)
    requires |payload| < 0x1_0000_0000_0000_0000
    ensures var f, n := WM.Whole(op, payload), |payload|;
            && W.Writable(f) && f.core == W.Core(true, op, payload) && f.reserved == 0
            && |W.Wire(f, key)| == n + (if key.Some? then 4 else 0) + if n <= 125 then 2 else if n <= 65535 then 4 else 10
  {
    PayloadBytes(WM.Whole(op, payload), key);
    hide W.Wire;
  }

  /** The sizes and opcodes that matter to the decoder. */
  lemma DecoderLimits(op: nat, f: W.Frame, key: Option<W.Key>, rest: seq<byte>, expectMasked: bool)
    requires W.Writable(f)
    ensures W.IsControl(op) <==> op == 8 || op == 9 || op == 10
    ensures W.Parse(W.Wire(f, key) + rest, expectMasked) == W.Invalid(W.TooLarge(|f.core.payload|)) <==> |f.core.payload| > 16_777_216
  {
    W.WireParses(f, key, rest, expectMasked);
    hide W.Parse, W.Wire;
  }

  const HELLO: seq<byte> := [72, 101, 108, 108, 111]

  /** The example of section 5.7 of RFC 6455: "Hello" as a text message. */
  lemma HelloUnmasked()
    ensures W.Wire(WM.Whole(1, HELLO), None) == [0x81, 0x05, 0x48, 0x65, 0x6c, 0x6c, 0x6f]
  {}

  lemma HelloBytes()
    ensures XorByte(72, 0x37) == 0x7f && XorByte(101, 0xfa) == 0x9f && XorByte(108, 0x21) == 0x4d
    ensures XorByte(108, 0x3d) == 0x51 && XorByte(111, 0x37) == 0x58
  {}

  /** The same, masked with the key of that example. */
  lemma HelloMasked()
    ensures W.Wire(WM.Whole(1, HELLO), Some([0x37, 0xfa, 0x21, 0x3d])) ==
            [0x81, 0x85, 0x37, 0xfa, 0x21, 0x3d, 0x7f, 0x9f, 0x4d, 0x51, 0x58]
  {
    HelloBytes();
    hide XorByte;
    assert W.Masked(HELLO, [0x37, 0xfa, 0x21, 0x3d]) == [0x7f, 0x9f, 0x4d, 0x51, 0x58];
  }
}
