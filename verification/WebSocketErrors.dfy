/** Frames out of place: what the decoder makes of each frame, and where it stops. */
module WebSocketErrors {
  import opened Wrappers
  import opened Bytes
  import opened Sequences
  import opened WebSocket
  import opened WebSocketMessages

  /** One frame taken: a control frame (8, 9, 10) is a message of its own at any time; a continuation (0) needs a message
      that has begun, adds to it and, if final, completes it; any other final frame is a message, also while another has
      begun, and any other first piece begins one and forgets what had begun. */
  lemma TakeMeans(p: Partial, c: Core)
    ensures c.op in {8, 9, 10} ==> Take(p, c) == Taken(p, [Message(c.op, c.payload)])
    ensures c.op == 0 && p.op == 0 ==> Take(p, c) == Refused(NoStart)
    ensures c.op == 0 && p.op != 0 ==>
              Take(p, c) == if c.fin then Taken(Partial(0, []), [Message(p.op, p.data + c.payload)])
                            else Taken(Partial(p.op, p.data + c.payload), [])
    ensures c.op !in {0, 8, 9, 10} ==>
              Take(p, c) == if c.fin then Taken(p, [Message(c.op, c.payload)]) else Taken(Partial(c.op, c.payload), [])
  {}

  lemma {:induction false} DrainOn(p: Partial, ss: seq<Sent>, rest: seq<byte>, expectMasked: bool)
    requires AllAcceptable(ss, expectMasked)
    ensures var a := Assemble(p, Cores(ss));
            a.error == None ==>
              Drain(Decoder(Stream(ss) + rest, p), expectMasked) == Before(a.messages, Drain(Decoder(rest, a.partial), expectMasked))
    decreases |ss|
  {
    hide Take, Drain, Wire;
    if ss == [] {
      assert Stream(ss) + rest == rest;
      NothingBefore(Drain(Decoder(rest, p), expectMasked));
    } else {
      var s := ss[0];
      assert Stream(ss) + rest == Wire(s.frame, s.key) + (Stream(ss[1..]) + rest);
      DrainFirst(p, s, Stream(ss[1..]) + rest, expectMasked);
      assert Cores(ss)[1..] == Cores(ss[1..]);
      var t := Take(p, s.frame.core);
      if t.Taken? {
        DrainOn(t.partial, ss[1..], rest, expectMasked);
        BeforeTwice(t.messages, Assemble(t.partial, Cores(ss[1..])).messages,
                    Drain(Decoder(rest, Assemble(t.partial, Cores(ss[1..])).partial), expectMasked));
      }
    }
  }

  lemma NothingBefore(o: Output)
    ensures Before([], o) == o
  {
    assert [] + o.messages == o.messages;
  }

  lemma BeforeTwice(a: seq<Message>, b: seq<Message>, o: Output)
    ensures Before(a, Before(b, o)) == Before(a + b, o)
  {
    assert a + (b + o.messages) == (a + b) + o.messages;
  }

  /** Why a frame cannot be taken by an idle decoder, if it cannot. */
  function WhyNot(f: Frame, key: Option<Key>, expectMasked: bool): Option<WsError> {
    if |f.core.payload| > 16_777_216 then Some(TooLarge(|f.core.payload|))
    else if key.Some? != expectMasked then Some(MaskRule(key.Some?))
    else if f.core.op == 0 then Some(NoStart)
    else None
  }

  lemma BadFrameStops(f: Frame, key: Option<Key>, rest: seq<byte>, expectMasked: bool)
    requires Writable(f) && WhyNot(f, key, expectMasked).Some?
    ensures var o := Drain(Decoder(Wire(f, key) + rest, IDLE), expectMasked);
            o.messages == [] && o.error == WhyNot(f, key, expectMasked)
  {
    WireParses(f, key, rest, expectMasked);
    TakeMeans(IDLE, f.core);
    hide Wire, Take, Parse;
  }

  /** Whole messages, then a frame that is too large, masked against the rule or a continuation of nothing, and then
      anything, the bytes cut in any way: the decoder yields those messages and stops there with the reason. */
  lemma StopsAtTheFirstBadFrame(items: seq<Item>, ss: seq<Sent>, f: Frame, key: Option<Key>, rest: seq<byte>,
                                chunks: seq<seq<byte>>, expectMasked: bool)
    requires forall i :: 0 <= i < |items| ==> ValidItem(items[i])
    requires AllAcceptable(ss, expectMasked) && Cores(ss) == ScriptCores(items)
    requires Writable(f) && WhyNot(f, key, expectMasked).Some? && Concat(chunks) == Stream(ss) + (Wire(f, key) + rest)
    ensures var o := FeedAll(Decoder([], IDLE), chunks, expectMasked);
            o.messages == ScriptMessages(items) && o.error == WhyNot(f, key, expectMasked)
  {
    hide ValidItem, ScriptCores, ScriptMessages, Assemble, Drain, Stream, FeedAll, Cores, Writable, Wire, WhyNot;
    DrainNothing(IDLE, expectMasked);
    ChunkingIsIrrelevant(Decoder([], IDLE), chunks, expectMasked);
    ScriptCompletes(items);
    DrainOn(IDLE, ss, Wire(f, key) + rest, expectMasked);
    BadFrameStops(f, key, rest, expectMasked);
    assert [] + Concat(chunks) == Concat(chunks);
    assert ScriptMessages(items) + [] == ScriptMessages(items);
  }
}
