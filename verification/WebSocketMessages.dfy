/** Whole messages over WebSocket: what a sender's messages become at the receiver, and the two ends in code. */
module WebSocketMessages {
  import opened Wrappers
  import opened Bytes
  import opened Sequences
  import opened WebSocket

  // ---- What a sender sends ----

  /** A further piece of a message and the control messages sent before it. */
  datatype Piece = Piece(controls: seq<Message>, payload: seq<byte>)

  /** A control message, or a data message in one or more pieces. */
  datatype Item = Control(message: Message) | Data(op: Opcode, first: seq<byte>, more: seq<Piece>)

  predicate AllControl(ms: seq<Message>) { forall i :: 0 <= i < |ms| ==> IsControl(ms[i].op) }

  predicate ValidItem(it: Item) {
    match it
    case Control(m) => IsControl(m.op)
    case Data(op, _, more) => !IsControl(op) && op != OP_CONT && forall i :: 0 <= i < |more| ==> AllControl(more[i].controls)
  }

  function ControlCores(ms: seq<Message>): (cs: seq<Core>)
    ensures |cs| == |ms|
  {
    seq(|ms|, i requires 0 <= i < |ms| => Core(true, ms[i].op, ms[i].payload))
  }

  function MoreCores(more: seq<Piece>): seq<Core> {
    if more == [] then []
    else ControlCores(more[0].controls) + [Core(|more| == 1, OP_CONT, more[0].payload)] + MoreCores(more[1..])
  }

  function ItemCores(it: Item): seq<Core> {
    match it
    case Control(m) => [Core(true, m.op, m.payload)]
    case Data(op, first, more) => [Core(more == [], op, first)] + MoreCores(more)
  }

  function ScriptCores(items: seq<Item>): seq<Core> {
    if items == [] then [] else ItemCores(items[0]) + ScriptCores(items[1..])
  }

  function ControlsOf(more: seq<Piece>): seq<Message> {
    if more == [] then [] else more[0].controls + ControlsOf(more[1..])
  }

  function PayloadOf(more: seq<Piece>): seq<byte> {
    if more == [] then [] else more[0].payload + PayloadOf(more[1..])
  }

  /** The messages of an item in the order in which they are complete. */
  function ItemMessages(it: Item): seq<Message> {
    match it
    case Control(m) => [m]
    case Data(op, first, more) => ControlsOf(more) + [Message(op, first + PayloadOf(more))]
  }

  function ScriptMessages(items: seq<Item>): seq<Message> {
    if items == [] then [] else ItemMessages(items[0]) + ScriptMessages(items[1..])
  }

  // ---- Taking the pieces gives back the messages ----

  lemma {:induction false} AssembleJoins(p: Partial, cs: seq<Core>, ds: seq<Core>)
    ensures var a := Assemble(p, cs);
            a.error == None ==>
              var b := Assemble(a.partial, ds);
              Assemble(p, cs + ds) == Assembled(b.partial, a.messages + b.messages, b.error)
    decreases |cs|
  {
    hide Take;
    if cs == [] {
      assert cs + ds == ds;
    } else {
      assert (cs + ds)[1..] == cs[1..] + ds;
      var t := Take(p, cs[0]);
      if t.Taken? {
        AssembleJoins(t.partial, cs[1..], ds);
      }
    }
  }

  lemma {:induction false} ControlsPass(p: Partial, ms: seq<Message>)
    requires AllControl(ms)
    ensures Assemble(p, ControlCores(ms)) == Assembled(p, ms, None)
    decreases |ms|
  {
    if ms == [] {
    } else {
      assert ControlCores(ms)[1..] == ControlCores(ms[1..]);
      ControlsPass(p, ms[1..]);
      assert [ms[0]] + ms[1..] == ms;
    }
  }

  lemma {:induction false} PiecesComplete(op: Opcode, data: seq<byte>, more: seq<Piece>)
    requires op != OP_CONT && !IsControl(op) && more != []
    requires forall i :: 0 <= i < |more| ==> AllControl(more[i].controls)
    ensures Assemble(Partial(op, data), MoreCores(more)) ==
              Assembled(IDLE, ControlsOf(more) + [Message(op, data + PayloadOf(more))], None)
    decreases |more|
  {
    var p, c := Partial(op, data), Core(|more| == 1, OP_CONT, more[0].payload);
    hide AllControl;
    hide Assemble;
    ControlsPass(p, more[0].controls);
    AssembleJoins(p, ControlCores(more[0].controls), [c]);
    AssembleJoins(p, ControlCores(more[0].controls) + [c], MoreCores(more[1..]));
    var now := data + more[0].payload;
    if |more| == 1 {
      assert now == data + PayloadOf(more) && ControlsOf(more) == more[0].controls;
      LastPiece(op, data, c);
      assert MoreCores(more) == ControlCores(more[0].controls) + [c];
    } else {
      NextPiece(op, data, c);
      PiecesComplete(op, now, more[1..]);
      assert now + PayloadOf(more[1..]) == data + PayloadOf(more);
      assert more[0].controls + [] == more[0].controls;
      assert more[0].controls + (ControlsOf(more[1..]) + [Message(op, now + PayloadOf(more[1..]))]) ==
             ControlsOf(more) + [Message(op, data + PayloadOf(more))];
    }
  }

  lemma One(p: Partial, c: Core)
    ensures var t := Take(p, c);
            Assemble(p, [c]) == if t.Refused? then Assembled(p, [], Some(t.error)) else Assembled(t.partial, t.messages, None)
  {
    hide Take;
    var t := Take(p, c);
    assert t.Taken? ==> t.messages + [] == t.messages;
  }

  lemma LastPiece(op: Opcode, data: seq<byte>, c: Core)
    requires op != OP_CONT && c.op == OP_CONT && c.fin
    ensures Assemble(Partial(op, data), [c]) == Assembled(IDLE, [Message(op, data + c.payload)], None)
  {
    One(Partial(op, data), c);
  }

  lemma NextPiece(op: Opcode, data: seq<byte>, c: Core)
    requires op != OP_CONT && c.op == OP_CONT && !c.fin
    ensures Assemble(Partial(op, data), [c]) == Assembled(Partial(op, data + c.payload), [], None)
  {
    One(Partial(op, data), c);
  }

  lemma ItemCompletes(it: Item)
    requires ValidItem(it)
    ensures Assemble(IDLE, ItemCores(it)) == Assembled(IDLE, ItemMessages(it), None)
  {
    One(IDLE, ItemCores(it)[0]);
    if it.Data? && it.more != [] {
      PiecesComplete(it.op, it.first, it.more);
      AssembleJoins(IDLE, [Core(false, it.op, it.first)], MoreCores(it.more));
    } else {
      assert ItemCores(it) == [ItemCores(it)[0]];
      assert it.Data? ==> it.first + PayloadOf(it.more) == it.first;
    }
  }

  lemma {:induction false} ScriptCompletes(items: seq<Item>)
    requires forall i :: 0 <= i < |items| ==> ValidItem(items[i])
    ensures Assemble(IDLE, ScriptCores(items)) == Assembled(IDLE, ScriptMessages(items), None)
    decreases |items|
  {
    hide ValidItem, ItemCores, ItemMessages;
    if items == [] {
    } else {
      ItemCompletes(items[0]);
      AssembleJoins(IDLE, ItemCores(items[0]), ScriptCores(items[1..]));
      ScriptCompletes(items[1..]);
    }
  }

  /** Any messages, in any pieces with control messages in between, with any keys and length forms, and the bytes cut
      in any way: the decoder yields exactly those messages in the order of completion, and is idle again. */
  lemma MessagesArrive(items: seq<Item>, ss: seq<Sent>, chunks: seq<seq<byte>>, expectMasked: bool)
    requires forall i :: 0 <= i < |items| ==> ValidItem(items[i])
    requires AllAcceptable(ss, expectMasked) && Cores(ss) == ScriptCores(items) && Concat(chunks) == Stream(ss)
    ensures FeedAll(Decoder([], IDLE), chunks, expectMasked) == Output(Decoder([], IDLE), ScriptMessages(items), None)
  {
    hide ValidItem, ScriptCores, ScriptMessages, Assemble, Drain, Stream, FeedAll, Cores, Writable;
    DrainNothing(IDLE, expectMasked);
    ChunkingIsIrrelevant(Decoder([], IDLE), chunks, expectMasked);
    DrainAssembles(IDLE, ss, expectMasked);
    ScriptCompletes(items);
    assert [] + Stream(ss) == Stream(ss);
  }

  // ---- The encoder ----

  function Shortest(n: nat): Form { if n < 126 then Short else if n < 0x1_0000 then Medium else Long }

  function Whole(op: Opcode, payload: seq<byte>): Frame { Frame(Core(true, op, payload), 0, Shortest(|payload|)) }

  /** One whole frame as bytes; the key is given when the sender is a client. */
  method EncodeFrame(op: Opcode, payload: seq<byte>, key: Option<Key>) returns (r: Result<seq<byte>, WsError>)
    requires |payload| < 0x1_0000_0000_0000_0000
    ensures r == if IsControl(op) && |payload| > 125 then Err(ControlTooLong) else Ok(Wire(Whole(op, payload), key))
  {
    hide Masked;
    if IsControl(op) && |payload| > MAX_CONTROL {
      return Err(ControlTooLong);
    }
    Widths();
    var out: seq<byte> := [128 + op];
    var n, maskBit := |payload|, if key.Some? then 128 else 0;
    if n < 126 {
      out := out + [maskBit + n];
    } else if n < 0x1_0000 {
      out := out + [maskBit + 126];
      out := out + ToBe(n, 2);
    } else {
      out := out + [maskBit + 127];
      out := out + ToBe(n, 8);
    }
    assert out == Head(Whole(op, payload), key.Some?);
    hide Head;
    if key.Some? {
      out := out + key.value;
      out := out + Masked(payload, key.value);
      assert out == Wire(Whole(op, payload), key);
    } else {
      out := out + payload;
    }
    r := Ok(out);
  }

  /** A frame made by the encoder is decoded as that message exactly when it is not over the size limit, is masked
      as the receiver expects, and is not a continuation. */
  lemma OneFrameArrives(op: Opcode, payload: seq<byte>, key: Option<Key>, expectMasked: bool)
    requires |payload| < 0x1_0000_0000_0000_0000
    ensures Feed(Decoder([], IDLE), Wire(Whole(op, payload), key), expectMasked) ==
              Output(Decoder([], IDLE), [Message(op, payload)], None)
            <==> |payload| <= MAX_FRAME && key.Some? == expectMasked && op != OP_CONT
  {
    var f := Whole(op, payload);
    WireParses(f, key, [], expectMasked);
    assert [] + Wire(f, key) == Wire(f, key) && Wire(f, key) + [] == Wire(f, key);
    hide Wire;
    if |payload| <= MAX_FRAME && key.Some? == expectMasked {
      DrainFirst(IDLE, Sent(f, key), [], expectMasked);
      DrainNothing(IDLE, expectMasked);
    }
    hide Parse;
  }

  // ---- The decoder ----

  class FrameDecoder {
    var buf: seq<byte>
    var fragOp: Opcode
    var frag: seq<byte>
    const expectMasked: bool

    function State(): Decoder
      reads this
    {
      Decoder(buf, Partial(fragOp, frag))
    }

    constructor (expectMasked: bool)
      ensures State() == Decoder([], IDLE) && this.expectMasked == expectMasked
    {
      buf, fragOp, frag := [], OP_CONT, [];
      this.expectMasked := expectMasked;
    }

    /** Takes one whole frame from the front of the buffer, if there is one. */
    method ParseFrame() returns (r: Parsed)
      modifies this`buf
      ensures r == Parse(old(buf), expectMasked)
      ensures buf == if r.Complete? then old(buf)[r.size..] else old(buf)
    {
      hide Masked, Be;
      if |buf| < 2 {
        return Incomplete;
      }
      var b0, b1 := buf[0], buf[1];
      var fin, op, masked, length, off := b0 >= 128, b0 % 16, b1 >= 128, b1 % 128, 2;
      if length == 126 {
        if |buf| < off + 2 {
          return Incomplete;
        }
        length, off := Be(buf[off..off + 2]), off + 2;
      } else if length == 127 {
        if |buf| < off + 8 {
          return Incomplete;
        }
        length, off := Be(buf[off..off + 8]), off + 8;
      }
      if length > MAX_FRAME {
        return Invalid(TooLarge(length));
      }
      if masked != expectMasked {
        return Invalid(MaskRule(masked));
      }
      var key: Key := [0, 0, 0, 0];
      if masked {
        if |buf| < off + 4 {
          return Incomplete;
        }
        key, off := buf[off..off + 4], off + 4;
      }
      if |buf| < off + length {
        return Incomplete;
      }
      var payload := buf[off..off + length];
      if masked {
        payload := Masked(payload, key);
      }
      buf := buf[off + length..];
      r := Complete(Core(fin, op, payload), off + length);
    }

    method Feed(data: seq<byte>) returns (messages: seq<Message>, error: Option<WsError>)
      modifies this
      ensures Output(State(), messages, error) == WebSocket.Feed(old(State()), data, expectMasked)
    {
      hide Parse;
      buf := buf + data;
      messages, error := [], None;
      ghost var all := Drain(State(), expectMasked);
      while true
        invariant error == None && all == Before(messages, Drain(State(), expectMasked))
        decreases |buf|
      {
        ghost var was, sofar := State(), messages;
        var item := ParseFrame();
        if item == Incomplete {
          assert messages + [] == messages;
          return;
        }
        if item.Invalid? {
          assert messages + [] == messages;
          return messages, Some(item.error);
        }
        var core := item.core;
        if IsControl(core.op) {
          messages := messages + [Message(core.op, core.payload)];
        } else if core.op == OP_CONT {
          if fragOp == OP_CONT {
            assert messages + [] == messages;
            return messages, Some(NoStart);
          }
          frag := frag + core.payload;
          if core.fin {
            messages := messages + [Message(fragOp, frag)];
            fragOp, frag := OP_CONT, [];
          }
        } else if core.fin {
          messages := messages + [Message(core.op, core.payload)];
        } else {
          fragOp, frag := core.op, core.payload;
        }
        DrainStep(was, State(), sofar, messages, item.core, item.size, expectMasked);
      }
    }
  }

  /** One more frame taken, in terms of all there is to take. */
  lemma DrainStep(was: Decoder, now: Decoder, before: seq<Message>, after: seq<Message>, core: Core, size: nat, expectMasked: bool)
    requires Parse(was.buf, expectMasked) == Complete(core, size) && now.buf == was.buf[size..]
    requires var t := Take(was.partial, core); t.Taken? && now.partial == t.partial && after == before + t.messages
    ensures Before(before, Drain(was, expectMasked)) == Before(after, Drain(now, expectMasked))
  {
    hide Parse, Take;
    var t := Take(was.partial, core);
    assert before + (t.messages + Drain(now, expectMasked).messages) == after + Drain(now, expectMasked).messages;
  }
}
