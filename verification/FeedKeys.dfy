/** The keys under which latest values are kept, and what the latest value of a key is. */
module FeedKeys {
  import opened Wrappers
  import opened Bytes
  import opened Feed

  predicate AllNul(s: seq<byte>) { forall i :: 0 <= i < |s| ==> s[i] == 0 }

  /** `text` is the field without the NUL bytes that pad it. */
  predicate IsText(field: seq<byte>, text: seq<byte>) {
    && text <= field && AllNul(field[|text|..])
    && (text != [] ==> text[|text| - 1] != 0)
  }

  lemma {:induction false} UnfixIsText(field: seq<byte>)
    ensures IsText(field, Unfix(field))
    decreases |field|
  {
    if field != [] && field[|field| - 1] == 0 {
      var front := field[..|field| - 1];
      UnfixIsText(front);
      assert field[|Unfix(front)|..] == front[|Unfix(front)|..] + [0];
    } else {
      assert field[|field|..] == [];
    }
  }

  lemma NotLonger(field: seq<byte>, a: seq<byte>, b: seq<byte>)
    requires IsText(field, a) && IsText(field, b)
    ensures |b| <= |a|
  {
    assert forall i :: |a| <= i < |field| ==> field[i] == field[|a|..][i - |a|] == 0;
    assert b != [] ==> field[|b| - 1] != 0;
  }

  lemma TextIsUnique(field: seq<byte>, a: seq<byte>, b: seq<byte>)
    requires IsText(field, a) && IsText(field, b)
    ensures a == b
  {
    NotLonger(field, a, b);
    NotLonger(field, b, a);
  }

  /** The message types and the flag that the feed goes by. */
  lemma MessageCodes(m: Msg)
    ensures MSG_TRADE == 2 && MSG_BOOK == 3 && MSG_SNAPSHOT == 5 && MSG_ACK == 7
    ensures IsSnapshotFlagged(m) <==> m.flags % 2 == 1
  {}

  /** A trade of at least 64 bytes or a book top of at least 72: its first sixteen bytes are the symbol and the next eight
      the venue. */
  predicate HasKey(m: Msg) {
    m.body.Data? && ((m.msgType == 2 && |m.body.bytes| >= 64) || (m.msgType == 3 && |m.body.bytes| >= 72))
  }

  function Symbol(m: Msg): seq<byte>
    requires HasKey(m)
  {
    m.body.bytes[..16]
  }

  function Venue(m: Msg): seq<byte>
    requires HasKey(m)
  {
    m.body.bytes[16..24]
  }

  /** The key is venue, colon, symbol, each without padding; other messages have none. */
  lemma KeyMeans(m: Msg, venue: seq<byte>, symbol: seq<byte>)
    ensures KeyOf(m.msgType, m.body).Some? <==> HasKey(m)
    ensures HasKey(m) && IsText(Venue(m), venue) && IsText(Symbol(m), symbol) ==> KeyOf(m.msgType, m.body) == Some(venue + [58] + symbol)
  {
    if HasKey(m) && IsText(Venue(m), venue) && IsText(Symbol(m), symbol) {
      UnfixIsText(Venue(m));
      UnfixIsText(Symbol(m));
      TextIsUnique(Venue(m), venue, Unfix(Venue(m)));
      TextIsUnique(Symbol(m), symbol, Unfix(Symbol(m)));
    }
  }

  lemma {:induction false} SplitAtColon(a: seq<byte>, x: seq<byte>, b: seq<byte>, y: seq<byte>)
    requires a + [58] + x == b + [58] + y && 58 !in a && 58 !in b
    ensures a == b && x == y
    decreases |a|
  {
    var s, t := a + [58] + x, b + [58] + y;
    assert s[0] == (if a == [] then 58 else a[0]) && t[0] == (if b == [] then 58 else b[0]);
    assert b != [] ==> b[0] in b;
    if a == [] {
      assert s[1..] == x && t[1..] == y;
    } else {
      assert a[0] in a;
      assert s[1..] == a[1..] + [58] + x && t[1..] == b[1..] + [58] + y;
      SplitAtColon(a[1..], x, b[1..], y);
      assert a == [a[0]] + a[1..] && b == [b[0]] + b[1..];
    }
  }

  /** With no colon in a venue, two messages have the same key exactly when venue and symbol are the same. */
  lemma SameKeyExactly(m: Msg, n: Msg)
    requires HasKey(m) && HasKey(n) && 58 !in Venue(m) && 58 !in Venue(n)
    ensures KeyOf(m.msgType, m.body) == KeyOf(n.msgType, n.body) <==>
            Unfix(Venue(m)) == Unfix(Venue(n)) && Unfix(Symbol(m)) == Unfix(Symbol(n))
  {
    UnfixIsText(Venue(m));
    UnfixIsText(Venue(n));
    assert 58 !in Unfix(Venue(m)) && 58 !in Unfix(Venue(n));
    KeyMeans(m, Unfix(Venue(m)), Unfix(Symbol(m)));
    KeyMeans(n, Unfix(Venue(n)), Unfix(Symbol(n)));
    UnfixIsText(Symbol(m));
    UnfixIsText(Symbol(n));
    hide Unfix, KeyOf;
    if KeyOf(m.msgType, m.body) == KeyOf(n.msgType, n.body) {
      SplitAtColon(Unfix(Venue(m)), Unfix(Symbol(m)), Unfix(Venue(n)), Unfix(Symbol(n)));
    }
  }

  /** A trade of a symbol at a venue. */
  function Trade(symbol: seq<byte>, venue: seq<byte>): Msg
    requires |symbol| <= 16 && |venue| <= 8
  {
    Msg(2, 0, 0, Data(symbol + seq(16 - |symbol|, _ => 0) + venue + seq(48 - |venue|, _ => 0)))
  }

  /** With colons two venues can share a key: "C" at "A:B" and "B:C" at "A". */
  lemma ColonsCollide()
    ensures var m, n := Trade([67], [65, 58, 66]), Trade([66, 58, 67], [65]); KeyOf(m.msgType, m.body) == KeyOf(n.msgType, n.body)
  {
    TradeKey([67], [65, 58, 66]);
    TradeKey([66, 58, 67], [65]);
    hide KeyOf, Trade;
    assert [65, 58, 66] + [58] + [67] == [65] + [58] + [66, 58, 67];
  }

  lemma TradeKey(symbol: seq<byte>, venue: seq<byte>)
    requires 0 < |symbol| <= 16 && 0 < |venue| <= 8 && symbol[|symbol| - 1] != 0 && venue[|venue| - 1] != 0
    ensures var m := Trade(symbol, venue); KeyOf(m.msgType, m.body) == Some(venue + [58] + symbol)
  {
    var m := Trade(symbol, venue);
    assert Symbol(m) == symbol + seq(16 - |symbol|, _ => 0);
    assert Venue(m) == venue + seq(8 - |venue|, _ => 0);
    assert Symbol(m)[|symbol|..] == seq(16 - |symbol|, _ => 0);
    assert Venue(m)[|venue|..] == seq(8 - |venue|, _ => 0);
    hide Trade, Symbol, Venue, KeyOf;
    KeyMeans(m, venue, symbol);
  }

  /** The message that is the last with a key. */
  ghost predicate IsLatest(ms: seq<Msg>, k: Key, i: nat) {
    && i < |ms| && KeyOf(ms[i].msgType, ms[i].body) == Some(k)
    && forall j :: i < j < |ms| ==> KeyOf(ms[j].msgType, ms[j].body) != Some(k)
  }

  /** The view holds for every key that occurs, and for no other, type and payload of the last message with that key. */
  lemma {:induction false} ViewIsLatest(ms: seq<Msg>, k: Key)
    ensures k in ViewOf(ms) <==> exists m :: m in ms && KeyOf(m.msgType, m.body) == Some(k)
    ensures forall i: nat :: IsLatest(ms, k, i) ==> k in ViewOf(ms) && ViewOf(ms)[k] == Value(ms[i].msgType, ms[i].body)
    decreases |ms|
  {
    hide KeyOf;
    if ms == [] {
    } else {
      var n := |ms| - 1;
      ViewIsLatest(ms[..n], k);
      assert ms == ms[..n] + [ms[n]];
      forall i: nat | IsLatest(ms, k, i)
        ensures i == n || (KeyOf(ms[n].msgType, ms[n].body) != Some(k) && IsLatest(ms[..n], k, i))
      {
        assert forall j :: 0 <= j < n ==> ms[..n][j] == ms[j];
      }
    }
  }
}
