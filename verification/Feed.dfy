/** Feed messages and the latest-value view that a publisher caches and a consumer builds up. */
module Feed {
  import opened Wrappers
  import opened Bytes
  import opened Layout

  const MSG_TRADE: byte := 2
  const MSG_BOOK: byte := 3
  const MSG_SNAPSHOT: byte := 5
  const MSG_ACK: byte := 7
  const TRADE_SIZE: nat := 64
  const BOOK_SIZE: nat := 72
  const SNAPSHOT_FLAG: nat := 1

  /** A payload: raw bytes, or the JSON text of a snapshot's closing message or of a retransmission receipt. */
  datatype Body =
    | Data(bytes: seq<byte>)
    | Meta(snapshotCount: nat, nextSeq: nat)
    | Receipt(from: nat, to: nat, sent: nat, unavailable: nat, oldest: nat, next: nat)

  datatype Msg = Msg(msgType: byte, flags: u16, number: nat, body: Body)

  /** The size of a message as a frame. */
  function WireSize(m: Msg): nat {
    HEADER_SIZE + (if m.body.Data? then |m.body.bytes| else 0) + CRC_SIZE
  }

  predicate IsSnapshotFlagged(m: Msg) { m.flags % 2 == SNAPSHOT_FLAG }

  /** A NUL-padded text field without its padding. */
  function Unfix(s: seq<byte>): seq<byte> {
    if s != [] && s[|s| - 1] == 0 then Unfix(s[..|s| - 1]) else s
  }

  type Key = seq<byte>

  /** Venue and symbol of a trade or a book top; other messages have no key. */
  function KeyOf(msgType: byte, body: Body): Option<Key> {
    if body.Data? && ((msgType == MSG_TRADE && |body.bytes| >= TRADE_SIZE) || (msgType == MSG_BOOK && |body.bytes| >= BOOK_SIZE))
    then Some(Unfix(body.bytes[16..24]) + [58] + Unfix(body.bytes[..16]))
    else None
  }

  datatype Value = Value(msgType: byte, body: Body)

  type View = map<Key, Value>

  function Seen(v: View, m: Msg): View {
    var k := KeyOf(m.msgType, m.body);
    if k.Some? then v[k.value := Value(m.msgType, m.body)] else v
  }

  /** The latest value of every key in a sequence of messages. */
  function ViewOf(ms: seq<Msg>): View {
    if ms == [] then map[] else Seen(ViewOf(ms[..|ms| - 1]), ms[|ms| - 1])
  }

  lemma ViewOfMore(ms: seq<Msg>, m: Msg)
    ensures ViewOf(ms + [m]) == Seen(ViewOf(ms), m)
  {
    assert (ms + [m])[..|ms|] == ms;
  }

  /** Messages that leave two equal views equal. */
  lemma {:induction false} ViewsAgree(a: seq<Msg>, b: seq<Msg>, more: seq<Msg>)
    requires ViewOf(a) == ViewOf(b)
    ensures ViewOf(a + more) == ViewOf(b + more)
    decreases |more|
  {
    hide ViewOf, Seen;
    if more == [] {
      assert a + more == a && b + more == b;
    } else {
      var front, m := more[..|more| - 1], more[|more| - 1];
      ViewsAgree(a, b, front);
      assert a + more == (a + front) + [m] && b + more == (b + front) + [m];
      ViewOfMore(a + front, m);
      ViewOfMore(b + front, m);
    }
  }

  lemma {:induction false} ViewValues(ms: seq<Msg>)
    ensures forall k :: k in ViewOf(ms) ==> KeyOf(ViewOf(ms)[k].msgType, ViewOf(ms)[k].body) == Some(k)
  {
    if ms == [] {
    } else {
      ViewValues(ms[..|ms| - 1]);
    }
  }
}
