/** Fill notices: which order a notice fills, that it counts once, and that totals may lag behind it. */
module Notices {
  import Wrappers
  import opened OrderBook
  import opened LedgerProofs

  // ---- Order numbers ----

  ghost predicate AllZeros(s: string) { forall i :: 0 <= i < |s| ==> s[i] == '0' }

  /** The same number, written with any zeros in front. */
  ghost predicate SameNumber(a: string, b: string) {
    exists m: nat, n: nat :: m <= |a| && n <= |b| && AllZeros(a[..m]) && AllZeros(b[..n]) && a[m..] == b[n..]
  }

  lemma {:induction false} Stripped(s: string) returns (m: nat)
    ensures m <= |s| && AllZeros(s[..m]) && s[m..] == StripZeros(s)
  {
    if s == "" || s[0] != '0' {
      m := 0;
    } else {
      var k := Stripped(s[1..]);
      m := k + 1;
      assert s[..m] == [s[0]] + s[1..][..k] && s[m..] == s[1..][k..];
    }
  }

  lemma {:induction false} StrippedRest(s: string, m: nat)
    requires m <= |s| && AllZeros(s[..m])
    ensures StripZeros(s[m..]) == StripZeros(s)
    decreases m
  {
    if m == 0 {
      assert s[0..] == s;
    } else {
      assert s[..m][0] == '0';
      assert s[1..][..m - 1] == s[..m][1..] && s[1..][m - 1..] == s[m..];
      StrippedRest(s[1..], m - 1);
    }
  }

  lemma StrippedIsSame(a: string, b: string)
    ensures StripZeros(a) == StripZeros(b) <==> SameNumber(a, b)
  {
    if StripZeros(a) == StripZeros(b) {
      var m := Stripped(a);
      var n := Stripped(b);
    }
    if m: nat, n: nat :| m <= |a| && n <= |b| && AllZeros(a[..m]) && AllZeros(b[..n]) && a[m..] == b[n..] {
      StrippedRest(a, m);
      StrippedRest(b, n);
    }
  }

  /** Order `i` is the first of its day with the broker's number. */
  ghost predicate IsNumbered(os: seq<Order>, i: nat, date: Date, number: string) {
    && i < |os| && HasNumber(os[i], date, number)
    && forall j :: 0 <= j < i ==> !HasNumber(os[j], date, number)
  }

  ghost predicate HasNumber(o: Order, date: Date, number: string) {
    o.date == date && o.brokerNo.Some? && SameNumber(o.brokerNo.value, number)
  }

  lemma FoundIsNumbered(os: seq<Order>, date: Date, number: string)
    ensures var r := FindBrokerNo(os, date, number);
            && (r.Some? ==> IsNumbered(os, r.value, date, number))
            && (forall i: nat :: IsNumbered(os, i, date, number) ==> r == Wrappers.Some(i))
  {
    hide SameNumber, StripZeros, FindBrokerNo;
    forall o: Order
      ensures HasNumber(o, date, number) <==> Answers(o, date, number)
    {
      if o.brokerNo.Some? {
        StrippedIsSame(o.brokerNo.value, number);
      }
    }
  }

  // ---- One notice ----

  ghost predicate Seen(b: Book, key: string) { exists n :: n in b.notices && n.key == key }

  /** The order takes the fill: it is open and has room for it. */
  predicate CanTake(o: Order, qty: int) {
    (o.state == Accepted || o.state == Partial) && 0 < qty <= o.qty - o.filledQty
  }

  /** A notice is applied exactly when its key is new and the first order of the day with its number is open and has
      room for it. Then this order, the fills log and the notices are what changes. */
  lemma NoticeApplies(b: Book, date: Date, number: string, qty: int, price: int, key: string, now: real, i: nat)
    requires IsNumbered(b.orders, i, date, number)
    ensures var (c, r) := ApplyNotice(b, date, number, qty, price, key, now);
            && (r == Applied <==> !Seen(b, key) && CanTake(b.orders[i], qty))
            && (r == Applied ==>
                  var o := b.orders[i];
                  && c == b.(orders := c.orders, fills := b.fills + [Fill(i, qty, qty * price, true, now)],
                             notices := b.notices + [Notice(key, i, qty, qty * price, now)])
                  && |c.orders| == |b.orders| && (forall j :: 0 <= j < |b.orders| && j != i ==> c.orders[j] == b.orders[j])
                  && c.orders[i] == o.(filledQty := o.filledQty + qty, filledAmt := o.filledAmt + qty * price,
                                       state := if o.filledQty + qty == o.qty then Filled else Partial))
            && (r == Ignored <==> !Seen(b, key) && !CanTake(b.orders[i], qty))
  {
    hide FindBrokerNo, IsNumbered;
    FoundIsNumbered(b.orders, date, number);
  }

  /** Any other notice changes nothing: one seen before, and one for no order of the ledger. */
  lemma NoticeElse(b: Book, date: Date, number: string, qty: int, price: int, key: string, now: real)
    ensures var (c, r) := ApplyNotice(b, date, number, qty, price, key, now);
            && (r == Duplicate <==> Seen(b, key))
            && (r == Unmatched <==> !Seen(b, key) && forall i: nat :: !IsNumbered(b.orders, i, date, number))
            && (r != Applied ==> c == b)
  {
    hide FindBrokerNo, IsNumbered;
    FoundIsNumbered(b.orders, date, number);
  }

  // ---- Every future ----

  lemma {:induction false} DistributionKeepsNotices(b: Book, i: nat, l: Line, left: int, amtLeft: int, delta: int, amtDelta: int, share: (int, int, int) -> int, now: real)
    requires i <= |b.orders|
    ensures Distributed(b, i, l, left, amtLeft, delta, amtDelta, share, now).notices == b.notices
    decreases |b.orders| - i
  {
    hide SameClients;
    if i == |b.orders| || left == 0 {
    } else if Room(b.orders[i], l) == 0 {
      DistributionKeepsNotices(b, i + 1, l, left, amtLeft, delta, amtDelta, share, now);
    } else {
      var take := if Room(b.orders[i], l) < left then Room(b.orders[i], l) else left;
      var amt := if take == left then amtLeft else share(amtDelta, take, delta);
      DistributionKeepsNotices(Booked(b, i, take, amt, false, now), i + 1, l, left - take, amtLeft - amt, delta, amtDelta, share, now);
    }
  }

  lemma FillsKeepNotices(b: Book, l: Line, broker: Totals, now: real, share: (int, int, int) -> int, breaks: seq<Break>)
    requires l in b.totals
    ensures ApplyFills(b, l, broker, now, share, breaks).0.notices == b.notices
  {
    hide Sum, RecentNotices, RoomFrom, Distributed, SameClients;
    var delta := Increase(b, l, broker);
    var amtDelta := broker.fillAmt - b.totals[l].fillAmt - Sum(b.orders, LiveAmt(l));
    DistributionKeepsNotices(b, 0, l, delta, amtDelta, delta, amtDelta, share, now);
  }

  lemma TotalsKeepNotices(b: Book, l: Line, t: Totals, now: real, share: (int, int, int) -> int)
    ensures ApplyTotals(b, l, t, now, share).0.notices == b.notices
  {
    hide ApplyFills, Sum, SameClients;
    if l in b.totals {
      var extra := t.ordQty - b.totals[l].ordQty - Sum(b.orders, LiveQty(l));
      FillsKeepNotices(Resolved(b, l, Accepted, now), l, t, now, share, []);
      FillsKeepNotices(Resolved(b, l, NotSent, now), l, t, now, share, if extra < 0 then [OrdersMissingAtBroker(-extra)] else []);
    }
  }

  lemma NoticesStay(b: Book, e: Event)
    ensures b.notices <= Step(b, e).notices
  {
    hide ApplyTotals, SameClients, FindBrokerNo, DaySummary, InScope, AnyUnresolved;
    match e
    case BrokerTotals(l, t, now, share) => TotalsKeepNotices(b, l, t, now, share);
    case _ =>
  }

  lemma {:induction false} SeenStays(b: Book, es: seq<Event>, key: string)
    requires Seen(b, key)
    ensures Seen(Run(b, es), key)
    decreases |es|
  {
    hide Step;
    if es == [] {
    } else {
      SeenStays(b, es[..|es| - 1], key);
      NoticesStay(Run(b, es[..|es| - 1]), es[|es| - 1]);
    }
  }

  /** A notice counts once: once applied, a notice with the same key is a duplicate in every future, whatever else it
      says, and changes nothing. */
  lemma NoticeCountsOnce(b: Book, date: Date, number: string, qty: int, price: int, key: string, now: real, es: seq<Event>,
                         date': Date, number': string, qty': int, price': int, now': real)
    requires ApplyNotice(b, date, number, qty, price, key, now).1 == Applied
    ensures var t := Run(ApplyNotice(b, date, number, qty, price, key, now).0, es);
            ApplyNotice(t, date', number', qty', price', key, now') == (t, Duplicate)
  {
    var c := ApplyNotice(b, date, number, qty, price, key, now).0;
    assert c.notices[|b.notices|].key == key;
    hide ApplyNotice, Run;
    SeenStays(c, es, key);
    NoticeElse(Run(c, es), date', number', qty', price', key, now');
  }

  // ---- Totals that lag behind a notice ----

  lemma {:induction false} OldNoticesDoNotCount(os: seq<Order>, ns: seq<Notice>, l: Line, now: real)
    requires forall n :: n in ns ==> now - n.ts >= 60.0
    ensures RecentNotices(os, ns, l, now) == 0
    decreases |ns|
  {
    if ns == [] {
    } else {
      assert ns[|ns| - 1] in ns;
      OldNoticesDoNotCount(os, ns[..|ns| - 1], l, now);
    }
  }

  /** Totals that agree with the ledger as it was before a notice, and come after it: for sixty seconds they only lag
      behind and nothing is reported; from then on the ledger's fills are reported as too many. */
  lemma LaggingTotals(b: Book, l: Line, number: string, i: nat, qty: int, price: int, key: string, at: real, report: Totals, now: real, share: (int, int, int) -> int)
    requires Ok(b) && l in b.totals && IsNumbered(b.orders, i, l.date, number) && On(b.orders[i], l)
    requires CanTake(b.orders[i], qty) && !Seen(b, key)
    requires report.ordQty == b.totals[l].ordQty + Sum(b.orders, LiveQty(l))
    requires report.fillQty == b.totals[l].fillQty + Sum(b.orders, LiveFilled(l))
    requires forall n :: n in b.notices ==> now - n.ts >= 60.0
    ensures var c := ApplyNotice(b, l.date, number, qty, price, key, at).0;
            var (d, breaks) := ApplyTotals(c, l, report, now, share);
            d.fills == c.fills && breaks == if now - at < 60.0 then [] else [FillsBelowLedger(-qty)]
  {
    hide Sum, SameClients, ApplyNotice, HasNumber, Ok;
    NoticeApplies(b, l.date, number, qty, price, key, at, i);
    NoticeKeeps(b, l.date, number, qty, price, key, at);
    var c := ApplyNotice(b, l.date, number, qty, price, key, at).0;
    assert c.orders == b.orders[i := c.orders[i]];
    SumUpdate(b.orders, i, c.orders[i], LiveQty(l));
    SumUpdate(b.orders, i, c.orders[i], LiveFilled(l));
    assert LiveQty(l)(c.orders[i]) == LiveQty(l)(b.orders[i]);
    assert LiveFilled(l)(c.orders[i]) == LiveFilled(l)(b.orders[i]) + qty;
    assert IsLive(c.orders[i].state) && c.orders[i].state != Unknown && On(c.orders[i], l);
    hide LiveQty, LiveFilled;
    Lagging(c, b.notices, l, i, qty, key, at, price, report, now, share);
  }

  lemma Lagging(c: Book, before: seq<Notice>, l: Line, i: nat, qty: int, key: string, at: real, price: int, report: Totals, now: real, share: (int, int, int) -> int)
    requires Ok(c) && l in c.totals && i < |c.orders| && On(c.orders[i], l) && IsLive(c.orders[i].state) && c.orders[i].state != Unknown && qty > 0
    requires c.notices == before + [Notice(key, i, qty, qty * price, at)] && forall n :: n in before ==> now - n.ts >= 60.0
    requires report.ordQty == c.totals[l].ordQty + Sum(c.orders, LiveQty(l))
    requires report.fillQty == c.totals[l].fillQty + Sum(c.orders, LiveFilled(l)) - qty
    ensures var (d, breaks) := ApplyTotals(c, l, report, now, share);
            d.fills == c.fills && breaks == if now - at < 60.0 then [] else [FillsBelowLedger(-qty)]
  {
    var r := Resolved(c, l, NotSent, now);
    ResolveKeeps(c, l, NotSent, now);
    OldNoticesDoNotCount(r.orders, before, l, now);
    assert c.notices[..|before|] == before;
    assert RecentNotices(r.orders, c.notices, l, now) == if now - at < 60.0 then qty else 0;
    hide Ok, Sum, RecentNotices, SameClients;
    assert ApplyTotals(c, l, report, now, share) == ApplyFills(r, l, report, now, share, []);
  }
}
