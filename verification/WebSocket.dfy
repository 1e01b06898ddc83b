/** The WebSocket frame format and message reassembly of RFC 6455, sections 5.2 to 5.4. */
module WebSocket {
  import opened Wrappers
  import opened Bytes
  import opened Sequences

  const OP_CONT: nat := 0
  const OP_CLOSE: nat := 8
  const OP_PING: nat := 9
  const OP_PONG: nat := 10
  const MAX_FRAME: nat := 16 * 1024 * 1024
  const MAX_CONTROL: nat := 125

  type Opcode = n: nat | n < 16

  type Key = k: seq<byte> | |k| == 4 witness [0, 0, 0, 0]

  predicate IsControl(op: nat) { op == OP_CLOSE || op == OP_PING || op == OP_PONG }

  datatype Message = Message(op: Opcode, payload: seq<byte>)

  /** How the length is written: in the second byte, or in a field of two or eight bytes after it. */
  datatype Form = Short | Medium | Long

  /** What a frame says. */
  datatype Core = Core(fin: bool, op: Opcode, payload: seq<byte>)

  /** A frame as a peer may send it: any reserved bits, and any length form that can hold the length. */
  datatype Frame = Frame(core: Core, reserved: nat, form: Form)

  predicate Writable(f: Frame) {
    && f.reserved < 8
    && match f.form
       case Short => |f.core.payload| < 126
       case Medium => |f.core.payload| < 0x1_0000
       case Long => |f.core.payload| < 0x1_0000_0000_0000_0000
  }

  function Masked(p: seq<byte>, key: Key): (r: seq<byte>)
    ensures |r| == |p|
  {
    seq(|p|, i requires 0 <= i < |p| => XorByte(p[i], key[i % 4]))
  }

  lemma MaskTwice(p: seq<byte>, key: Key)
    ensures Masked(Masked(p, key), key) == p
  {
    hide XorByte;
    forall i | 0 <= i < |p|
      ensures XorByte(XorByte(p[i], key[i % 4]), key[i % 4]) == p[i]
    {
      XorTwice(p[i], key[i % 4]);
    }
  }

  function Mark(b: bool): nat { if b then 128 else 0 }

  function LengthCode(f: Frame): nat
    requires Writable(f)
  {
    match f.form case Short => |f.core.payload| case Medium => 126 case Long => 127
  }

  function LengthField(f: Frame): seq<byte>
    requires Writable(f)
  {
    Widths();
    match f.form case Short => [] case Medium => ToBe(|f.core.payload|, 2) case Long => ToBe(|f.core.payload|, 8)
  }

  function Head(f: Frame, masked: bool): seq<byte>
    requires Writable(f)
  {
    [Mark(f.core.fin) + 16 * f.reserved + f.core.op, Mark(masked) + LengthCode(f)] + LengthField(f)
  }

  /** The bytes of a frame, masked when there is a key. */
  function Wire(f: Frame, key: Option<Key>): seq<byte>
    requires Writable(f)
  {
    Head(f, key.Some?) + (if key.Some? then key.value + Masked(f.core.payload, key.value) else f.core.payload)
  }

  // ---- Taking one frame from the front of a buffer ----

  datatype WsError = TooLarge(length: nat) | MaskRule(masked: bool) | NoStart | ControlTooLong

  datatype Parsed = Incomplete | Invalid(error: WsError) | Complete(core: Core, size: nat)

  function FieldSize(code: nat): nat { if code == 126 then 2 else if code == 127 then 8 else 0 }

  function Parse(buf: seq<byte>, expectMasked: bool): (r: Parsed)
    ensures r.Complete? ==> 2 <= r.size <= |buf|
  {
    if |buf| < 2 then Incomplete
    else
      var masked, code := buf[1] >= 128, buf[1] % 128;
      var off := 2 + FieldSize(code);
      if |buf| < off then Incomplete
      else
        var length := if FieldSize(code) > 0 then Be(buf[2..off]) else code;
        if length > MAX_FRAME then Invalid(TooLarge(length))
        else if masked != expectMasked then Invalid(MaskRule(masked))
        else
          var start := off + if masked then 4 else 0;
          if |buf| < start + length then Incomplete
          else
            var data := buf[start..start + length];
            Complete(Core(buf[0] >= 128, buf[0] % 16, if masked then Masked(data, buf[off..off + 4]) else data), start + length)
  }

  /** Once there is a verdict on the front of the buffer, later bytes do not change it. */
  lemma VerdictStays(a: seq<byte>, b: seq<byte>, expectMasked: bool)
    requires Parse(a, expectMasked) != Incomplete
    ensures Parse(a + b, expectMasked) == Parse(a, expectMasked)
  {
    hide Masked, Be;
    var off := 2 + FieldSize(a[1] % 128);
    assert (a + b)[0] == a[0] && (a + b)[1] == a[1];
    FrontSlice(a, b, 2, off);
    var length := if FieldSize(a[1] % 128) > 0 then Be(a[2..off]) else a[1] % 128;
    if length <= MAX_FRAME && (a[1] >= 128) == expectMasked {
      var start := off + if a[1] >= 128 then 4 else 0;
      FrontSlice(a, b, off, start);
      FrontSlice(a, b, start, start + length);
    }
  }

  lemma FrontSlice(a: seq<byte>, b: seq<byte>, i: nat, j: nat)
    requires i <= j <= |a|
    ensures (a + b)[i..j] == a[i..j]
  {}

  lemma Slices(h: seq<byte>, k: seq<byte>, m: seq<byte>, rest: seq<byte>)
    ensures var w := h + (k + m) + rest;
            && w[..|h|] == h && w[|h|..|h| + |k|] == k && w[|h| + |k|..|h| + |k| + |m|] == m
  {}

  lemma HeadCodes(f: Frame, masked: bool)
    requires Writable(f)
    ensures var h := Head(f, masked);
            && |h| == 2 + |LengthField(f)| == 2 + FieldSize(LengthCode(f))
            && (h[0] >= 128 <==> f.core.fin) && h[0] % 16 == f.core.op
            && (h[1] >= 128 <==> masked) && h[1] % 128 == LengthCode(f)
            && h[2..] == LengthField(f)
  {
    hide Be, ToBe;
  }

  lemma LengthReads(f: Frame)
    requires Writable(f) && f.form != Short
    ensures Be(LengthField(f)) == |f.core.payload|
  {
    Widths();
    if f.form == Medium {
      BeOfToBe(|f.core.payload|, 2);
    } else {
      BeOfToBe(|f.core.payload|, 8);
    }
  }

  /** The fields of a frame where the decoder looks for them. */
  ghost predicate LaidOut(buf: seq<byte>, f: Frame, key: Option<Key>)
    requires Writable(f)
  {
    var off, n := 2 + FieldSize(LengthCode(f)), |f.core.payload|;
    var start := off + if key.Some? then 4 else 0;
    && |buf| >= start + n
    && (buf[0] >= 128 <==> f.core.fin) && buf[0] % 16 == f.core.op
    && (buf[1] >= 128 <==> key.Some?) && buf[1] % 128 == LengthCode(f)
    && (f.form != Short ==> Be(buf[2..off]) == n)
    && (key.Some? ==> buf[off..start] == key.value && Masked(buf[start..start + n], key.value) == f.core.payload)
    && (key.None? ==> buf[start..start + n] == f.core.payload)
  }

  lemma WireIsLaidOut(f: Frame, key: Option<Key>, rest: seq<byte>)
    requires Writable(f)
    ensures LaidOut(Wire(f, key) + rest, f, key)
    ensures |Wire(f, key)| == 2 + FieldSize(LengthCode(f)) + (if key.Some? then 4 else 0) + |f.core.payload|
  {
    var h := Head(f, key.Some?);
    HeadCodes(f, key.Some?);
    if f.form != Short {
      LengthReads(f);
    }
    hide Be, Masked, Head, LengthField, FieldSize, LengthCode;
    var wire := Wire(f, key) + rest;
    var off := |h|;
    if key.Some? {
      MaskTwice(f.core.payload, key.value);
      Slices(h, key.value, Masked(f.core.payload, key.value), rest);
    } else {
      Slices(h, [], f.core.payload, rest);
      assert h + f.core.payload == h + ([] + f.core.payload);
    }
    assert wire[0] == wire[..off][0] && wire[1] == wire[..off][1] && wire[2..off] == wire[..off][2..];
  }

  /** Decoding inverts encoding, for every frame, length form and key, whatever follows; all that is refused is a
      frame that is too large or masked when it should not be, or the other way round. */
  lemma WireParses(f: Frame, key: Option<Key>, rest: seq<byte>, expectMasked: bool)
    requires Writable(f)
    ensures Parse(Wire(f, key) + rest, expectMasked) ==
              if |f.core.payload| > MAX_FRAME then Invalid(TooLarge(|f.core.payload|))
              else if key.Some? != expectMasked then Invalid(MaskRule(key.Some?))
              else Complete(f.core, |Wire(f, key)|)
  {
    WireIsLaidOut(f, key, rest);
    hide Be, Masked, Wire, Mark;
  }

  // ---- Putting messages together ----

  /** A message that has begun: its opcode, and what has come of it; opcode 0 when there is none. */
  datatype Partial = Partial(op: Opcode, data: seq<byte>)

  const IDLE := Partial(OP_CONT, [])

  datatype Taken = Taken(partial: Partial, messages: seq<Message>) | Refused(error: WsError)

  function Take(p: Partial, c: Core): Taken {
    if IsControl(c.op) then Taken(p, [Message(c.op, c.payload)])
    else if c.op == OP_CONT then
      if p.op == OP_CONT then Refused(NoStart)
      else if c.fin then Taken(IDLE, [Message(p.op, p.data + c.payload)])
      else Taken(Partial(p.op, p.data + c.payload), [])
    else if c.fin then Taken(p, [Message(c.op, c.payload)])
    else Taken(Partial(c.op, c.payload), [])
  }

  datatype Decoder = Decoder(buf: seq<byte>, partial: Partial)

  /** The messages handed over, and why it stopped if it was not for want of bytes. */
  datatype Output = Output(decoder: Decoder, messages: seq<Message>, error: Option<WsError>)

  function Drain(d: Decoder, expectMasked: bool): Output
    decreases |d.buf|
  {
    match Parse(d.buf, expectMasked)
    case Incomplete => Output(d, [], None)
    case Invalid(e) => Output(d, [], Some(e))
    case Complete(core, size) =>
      match Take(d.partial, core)
      case Refused(e) => Output(Decoder(d.buf[size..], d.partial), [], Some(e))
      case Taken(p, ms) =>
        var rest := Drain(Decoder(d.buf[size..], p), expectMasked);
        Output(rest.decoder, ms + rest.messages, rest.error)
  }

  function Feed(d: Decoder, data: seq<byte>, expectMasked: bool): Output {
    Drain(d.(buf := d.buf + data), expectMasked)
  }

  /** Chunk after chunk, until there is an error. */
  function FeedAll(d: Decoder, chunks: seq<seq<byte>>, expectMasked: bool): Output
    decreases |chunks|
  {
    if chunks == [] then Output(d, [], None)
    else
      var o := Feed(d, chunks[0], expectMasked);
      if o.error.Some? then o
      else
        var rest := FeedAll(o.decoder, chunks[1..], expectMasked);
        Output(rest.decoder, o.messages + rest.messages, rest.error)
  }

  /** What does not depend on how the bytes came: the messages, the error, and without an error what is kept. */
  ghost predicate Same(a: Output, b: Output) {
    a.messages == b.messages && a.error == b.error && (a.error == None ==> a.decoder == b.decoder)
  }

  function After(o: Output, more: seq<byte>, expectMasked: bool): Output {
    if o.error.Some? then o
    else
      var rest := Feed(o.decoder, more, expectMasked);
      Output(rest.decoder, o.messages + rest.messages, rest.error)
  }

  function Before(ms: seq<Message>, o: Output): Output { o.(messages := ms + o.messages) }

  lemma DrainGoesOn(d: Decoder, expectMasked: bool)
    ensures var o, r := Drain(d, expectMasked), Parse(d.buf, expectMasked);
            && (r == Incomplete ==> o == Output(d, [], None))
            && (r.Invalid? ==> o == Output(d, [], Some(r.error)))
            && (r.Complete? ==>
                  var t := Take(d.partial, r.core);
                  o == if t.Refused? then Output(Decoder(d.buf[r.size..], d.partial), [], Some(t.error))
                       else Before(t.messages, Drain(Decoder(d.buf[r.size..], t.partial), expectMasked)))
  {
    hide Parse, Take;
  }

  lemma {:induction false} DrainInTwo(d: Decoder, more: seq<byte>, expectMasked: bool)
    ensures Same(Drain(d.(buf := d.buf + more), expectMasked), After(Drain(d, expectMasked), more, expectMasked))
    decreases |d.buf|
  {
    hide Parse, Take, Drain;
    var r, e := Parse(d.buf, expectMasked), d.(buf := d.buf + more);
    DrainGoesOn(d, expectMasked);
    if r != Incomplete {
      VerdictStays(d.buf, more, expectMasked);
      DrainGoesOn(e, expectMasked);
    }
    if r.Complete? && Take(d.partial, r.core).Taken? {
      var t := Take(d.partial, r.core);
      var next := Decoder(d.buf[r.size..], t.partial);
      assert e.buf[r.size..] == next.buf + more;
      DrainInTwo(next, more, expectMasked);
      var o := Drain(next, expectMasked);
      var rest := Feed(o.decoder, more, expectMasked);
      assert t.messages + (o.messages + rest.messages) == (t.messages + o.messages) + rest.messages;
    }
  }

  /** Chunk boundaries do not matter: any way of cutting the stream gives the messages and the error that the
      stream gives in one piece. */
  lemma {:induction false} ChunkingIsIrrelevant(d: Decoder, chunks: seq<seq<byte>>, expectMasked: bool)
    requires Drain(d, expectMasked) == Output(d, [], None)
    ensures Same(FeedAll(d, chunks, expectMasked), Feed(d, Concat(chunks), expectMasked))
    decreases |chunks|
  {
    hide Parse, Take;
    if chunks == [] {
      assert d.buf + [] == d.buf;
    } else {
      var o := Feed(d, chunks[0], expectMasked);
      assert d.buf + Concat(chunks) == (d.buf + chunks[0]) + Concat(chunks[1..]);
      DrainInTwo(d.(buf := d.buf + chunks[0]), Concat(chunks[1..]), expectMasked);
      if o.error == None {
        DrainRests(d.(buf := d.buf + chunks[0]), expectMasked);
        ChunkingIsIrrelevant(o.decoder, chunks[1..], expectMasked);
      }
    }
  }

  /** What a drain leaves behind holds no complete frame. */
  lemma {:induction false} DrainRests(d: Decoder, expectMasked: bool)
    ensures var o := Drain(d, expectMasked);
            o.error == None ==> Drain(o.decoder, expectMasked) == Output(o.decoder, [], None)
    decreases |d.buf|
  {
    hide Parse, Take;
    var r := Parse(d.buf, expectMasked);
    if r.Complete? {
      var t := Take(d.partial, r.core);
      if t.Taken? {
        DrainRests(Decoder(d.buf[r.size..], t.partial), expectMasked);
      }
    }
  }

  // ---- Frames in, messages out ----

  datatype Sent = Sent(frame: Frame, key: Option<Key>)

  ghost predicate Acceptable(s: Sent, expectMasked: bool) {
    Writable(s.frame) && |s.frame.core.payload| <= MAX_FRAME && s.key.Some? == expectMasked
  }

  ghost predicate AllAcceptable(ss: seq<Sent>, expectMasked: bool) {
    forall i :: 0 <= i < |ss| ==> Acceptable(ss[i], expectMasked)
  }

  function Stream(ss: seq<Sent>): seq<byte>
    requires forall i :: 0 <= i < |ss| ==> Writable(ss[i].frame)
  {
    if ss == [] then [] else Wire(ss[0].frame, ss[0].key) + Stream(ss[1..])
  }

  datatype Assembled = Assembled(partial: Partial, messages: seq<Message>, error: Option<WsError>)

  /** Taking the frames one after the other. */
  function Assemble(p: Partial, cs: seq<Core>): Assembled
    decreases |cs|
  {
    if cs == [] then Assembled(p, [], None)
    else
      match Take(p, cs[0])
      case Refused(e) => Assembled(p, [], Some(e))
      case Taken(q, ms) => var r := Assemble(q, cs[1..]); r.(messages := ms + r.messages)
  }

  function Cores(ss: seq<Sent>): (cs: seq<Core>)
    ensures |cs| == |ss|
  {
    seq(|ss|, i requires 0 <= i < |ss| => ss[i].frame.core)
  }

  lemma DrainFirst(p: Partial, s: Sent, rest: seq<byte>, expectMasked: bool)
    requires Acceptable(s, expectMasked)
    ensures var o, t := Drain(Decoder(Wire(s.frame, s.key) + rest, p), expectMasked), Take(p, s.frame.core);
            if t.Refused? then o.messages == [] && o.error == Some(t.error)
            else o == Before(t.messages, Drain(Decoder(rest, t.partial), expectMasked))
  {
    WireParses(s.frame, s.key, rest, expectMasked);
    hide Take, Parse, Wire;
    assert (Wire(s.frame, s.key) + rest)[|Wire(s.frame, s.key)|..] == rest;
  }

  lemma DrainNothing(p: Partial, expectMasked: bool)
    ensures Drain(Decoder([], p), expectMasked) == Output(Decoder([], p), [], None)
  {}

  lemma {:induction false} DrainAssembles(p: Partial, ss: seq<Sent>, expectMasked: bool)
    requires AllAcceptable(ss, expectMasked)
    ensures var o, a := Drain(Decoder(Stream(ss), p), expectMasked), Assemble(p, Cores(ss));
            o.messages == a.messages && o.error == a.error && (o.error == None ==> o.decoder == Decoder([], a.partial))
    decreases |ss|
  {
    hide Take, Drain, Wire;
    if ss == [] {
      DrainNothing(p, expectMasked);
    } else {
      var s := ss[0];
      DrainFirst(p, s, Stream(ss[1..]), expectMasked);
      assert Cores(ss)[1..] == Cores(ss[1..]);
      var t := Take(p, s.frame.core);
      if t.Taken? {
        DrainAssembles(t.partial, ss[1..], expectMasked);
      }
    }
  }
}
