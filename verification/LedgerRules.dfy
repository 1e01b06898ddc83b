/** The ledger's operations in their own terms: what a new order is, what a restart and a report do to orders of unknown
    fate, in which order an increase is given out, and what a day's closing report counts. */
module LedgerRules {
  import opened Wrappers
  import opened OrderBook
  import LedgerProofs
  import opened ClosedDays

  // ---- New orders ----

  /** A fresh row with what the draft says, not sent yet. */
  predicate IsRowOf(o: Order, d: Draft, now: real) {
    && (o.clientId, o.date, o.symbol, o.side, o.qty, o.price) == (d.clientId, d.date, d.symbol, d.side, d.qty, d.price)
    && o.estPrice == (if d.estPrice == 0 then d.price else d.estPrice)
    && o.state == PendingSubmit && o.brokerNo == None && o.filledQty == 0 && o.filledAmt == 0 && o.created == now
  }

  /** A new order: given back if its client id is known; else refused without a quantity or with a negative price; else
      written as a row before anything is sent. */
  lemma NewOrderMeans(b: Book, d: Draft, now: real)
    ensures var known := exists i :: 0 <= i < |b.orders| && b.orders[i].clientId == d.clientId;
            match NewOrder(b, d, now)
            case Err(e) => !known && (e == BadQuantity <==> d.qty <= 0) && (e == BadPrice <==> d.qty > 0 && d.price < 0)
            case Ok((c, i, isNew)) =>
              && isNew == !known
              && (known ==> c == b && i < |b.orders| && b.orders[i].clientId == d.clientId)
              && (isNew ==> d.qty > 0 && d.price >= 0 && i == |b.orders| && |c.orders| == i + 1 && c.orders[..i] == b.orders &&
                            IsRowOf(c.orders[i], d, now) && c == b.(orders := c.orders))
  {
    hide FindClient;
    var r := NewOrder(b, d, now);
    if r.Ok? && r.value.2 {
      assert r.value.0.orders[..|b.orders|] == b.orders;
    }
  }

  /** What came of sending an order is noted on that order, once, and nowhere else. */
  lemma SubmitResultMeans(b: Book, i: nat, s: OrderState, no: Option<string>)
    ensures var c := Step(b, SubmitResult(i, s, no));
            var noted := i < |b.orders| && b.orders[i].state == PendingSubmit && (s == Accepted || s == Rejected || s == Unknown);
            && (!noted ==> c == b)
            && (noted ==>
                  && c == b.(orders := c.orders) && |c.orders| == |b.orders|
                  && (forall j :: 0 <= j < |b.orders| && j != i ==> c.orders[j] == b.orders[j])
                  && c.orders[i] == b.orders[i].(state := s, brokerNo := if no == None then b.orders[i].brokerNo else no))
  {}

  /** A restart: an order that was being sent is of unknown fate; no other order changes. */
  lemma RestartMeans(b: Book)
    ensures var c := Step(b, Restart);
            && c == b.(orders := c.orders) && |c.orders| == |b.orders|
            && forall i :: 0 <= i < |b.orders| ==>
                 c.orders[i] == if b.orders[i].state == PendingSubmit then b.orders[i].(state := Unknown) else b.orders[i]
  {}

  /** A line's baseline and a day's holdings are taken once; later ones change nothing. */
  lemma BaselinesAreTakenOnce(b: Book, l: Line, t: Totals, date: Date, h: map<string, int>)
    ensures var c := Step(b, TotalsBaseline(l, t));
            (l in b.totals ==> c == b) && (l !in b.totals ==> c == b.(totals := b.totals[l := t]))
    ensures var c := Step(b, HoldingsBaseline(date, h));
            && (date in b.holdingsTaken ==> c == b)
            && (date !in b.holdingsTaken ==>
                  && c == b.(holdings := c.holdings, holdingsTaken := b.holdingsTaken + {date})
                  && (forall s :: s in h ==> (date, s) in c.holdings && c.holdings[(date, s)] == h[s])
                  && (forall k :: k in c.holdings && (k.0 != date || k.1 !in h) ==> k in b.holdings && c.holdings[k] == b.holdings[k])
                  && (forall k :: k in b.holdings && (k.0 != date || k.1 !in h) ==> k in c.holdings))
  {
    var n := map s | s in h :: (date, s) := h[s];
    forall k
      ensures k in n <==> k.0 == date && k.1 in h
      ensures k in n ==> n[k] == h[k.1]
    {}
  }

  // ---- What a report does to orders of unknown fate ----

  predicate WasSent(s: OrderState) { s == Accepted || s == Partial || s == Filled || s == Expired }

  predicate OnLine(o: Order, l: Line) { o.date == l.date && o.symbol == l.symbol && o.side == l.side }

  /** The quantity of the line's orders that were sent, or whose fate is unknown. */
  function SentQty(os: seq<Order>, l: Line): int {
    if os == [] then 0
    else
      var o := os[|os| - 1];
      SentQty(os[..|os| - 1], l) + if OnLine(o, l) && WasSent(o.state) then o.qty else 0
  }

  function DoubtfulQty(os: seq<Order>, l: Line): int {
    if os == [] then 0
    else
      var o := os[|os| - 1];
      DoubtfulQty(os[..|os| - 1], l) + if OnLine(o, l) && o.state == Unknown then o.qty else 0
  }

  lemma {:induction false} SumsAre(os: seq<Order>, l: Line)
    ensures Sum(os, LiveQty(l)) == SentQty(os, l) && Sum(os, UnknownQty(l)) == DoubtfulQty(os, l)
  {
    if os == [] {
    } else {
      SumsAre(os[..|os| - 1], l);
      var o := os[|os| - 1];
      assert LiveQty(l)(o) == if OnLine(o, l) && WasSent(o.state) then o.qty else 0;
      assert UnknownQty(l)(o) == if OnLine(o, l) && o.state == Unknown then o.qty else 0;
    }
  }

  /** Orders the broker shows beyond those known to be sent. */
  function Extra(b: Book, l: Line, broker: Totals): int
    requires l in b.totals
  {
    broker.ordQty - b.totals[l].ordQty - SentQty(b.orders, l)
  }

  /** A report and an order of unknown fate: on another line it stays; if the broker shows just as much more as is in
      doubt, it was sent; if the broker shows nothing more, it was not, once thirty seconds have passed; and if the broker
      shows anything else, nothing at all changes. */
  lemma DoubtIsResolved(b: Book, l: Line, broker: Totals, now: real, share: (int, int, int) -> int, i: nat)
    requires i < |b.orders| && b.orders[i].state == Unknown
    ensures var (c, breaks) := ApplyTotals(b, l, broker, now, share);
            && |c.orders| == |b.orders|
            && (l !in b.totals ==> c == b && breaks == [NoBaseline])
            && (l in b.totals ==>
                  var extra, o := Extra(b, l, broker), b.orders[i];
                  && (extra > 0 && DoubtfulQty(b.orders, l) != extra ==> c == b && breaks == [UnexplainedBrokerOrders(extra)])
                  && (!OnLine(o, l) ==> c.orders[i] == o)
                  && (OnLine(o, l) && extra > 0 && DoubtfulQty(b.orders, l) == extra ==>
                        c.orders[i].state == Accepted || c.orders[i].state == Partial || c.orders[i].state == Filled)
                  && (OnLine(o, l) && extra <= 0 ==> c.orders[i] == if now - o.created > 30.0 then o.(state := NotSent) else o)
                  && (extra < 0 <==> OrdersMissingAtBroker(-extra) in breaks))
  {
    hide ApplyFills, Sum, SameClients;
    SumsAre(b.orders, l);
    hide LiveQty, UnknownQty, SentQty, DoubtfulQty;
    if l in b.totals {
      var extra := Extra(b, l, broker);
      var missing := if extra < 0 then [OrdersMissingAtBroker(-extra)] else [];
      FillsTouchOpenOnly(Resolved(b, l, Accepted, now), l, broker, now, share, [], i);
      FillsTouchOpenOnly(Resolved(b, l, NotSent, now), l, broker, now, share, missing, i);
      FillsReportBeside(Resolved(b, l, Accepted, now), l, broker, now, share, []);
      FillsReportBeside(Resolved(b, l, NotSent, now), l, broker, now, share, missing);
    }
  }

  lemma FillsTouchOpenOnly(b: Book, l: Line, broker: Totals, now: real, share: (int, int, int) -> int, breaks: seq<Break>, i: nat)
    requires l in b.totals && i < |b.orders|
    ensures var c := ApplyFills(b, l, broker, now, share, breaks).0;
            && |c.orders| == |b.orders|
            && (!IsFillable(b.orders[i].state) || !OnLine(b.orders[i], l) ==> c.orders[i] == b.orders[i])
            && (IsFillable(b.orders[i].state) ==> IsFillable(c.orders[i].state) || c.orders[i].state == Filled)
  {
    hide Sum, RecentNotices, RoomFrom, Distributed, SameClients;
    var delta := LedgerProofs.Increase(b, l, broker);
    var amtDelta := broker.fillAmt - b.totals[l].fillAmt - Sum(b.orders, LiveAmt(l));
    GivenToOpenOnly(b, 0, l, delta, amtDelta, delta, amtDelta, share, now, i);
  }

  /** What a fill does to order `j`: nothing unless it is the one that is filled, which was open and on the line. */
  ghost predicate MayBeFilled(o: Order, p: Order, l: Line) {
    && (!IsFillable(o.state) || !OnLine(o, l) ==> p == o)
    && (IsFillable(o.state) ==> IsFillable(p.state) || p.state == Filled)
    && (OnLine(p, l) <==> OnLine(o, l))
  }

  lemma BookedOne(b: Book, i: nat, l: Line, qty: int, amt: int, now: real, j: nat)
    requires i < |b.orders| && j < |b.orders| && Room(b.orders[i], l) > 0
    ensures var d := Booked(b, i, qty, amt, false, now); |d.orders| == |b.orders| && MayBeFilled(b.orders[j], d.orders[j], l)
  {}

  lemma MayBeFilledOn(o: Order, p: Order, q: Order, l: Line)
    requires MayBeFilled(o, p, l) && MayBeFilled(p, q, l) && (p.state == Filled ==> q == p)
    ensures MayBeFilled(o, q, l)
  {}

  lemma NotFilled(o: Order, l: Line)
    ensures MayBeFilled(o, o, l)
  {}

  lemma {:induction false} GivenToOpenOnly(b: Book, i: nat, l: Line, left: int, amtLeft: int, delta: int, amtDelta: int, share: (int, int, int) -> int, now: real, j: nat)
    requires i <= |b.orders| && j < |b.orders|
    ensures var c := Distributed(b, i, l, left, amtLeft, delta, amtDelta, share, now);
            |c.orders| == |b.orders| && MayBeFilled(b.orders[j], c.orders[j], l)
    decreases |b.orders| - i
  {
    hide SameClients, Booked, MayBeFilled, Room;
    if i == |b.orders| || left == 0 {
      NotFilled(b.orders[j], l);
    } else if Room(b.orders[i], l) == 0 {
      GivenToOpenOnly(b, i + 1, l, left, amtLeft, delta, amtDelta, share, now, j);
    } else {
      var take := if Room(b.orders[i], l) < left then Room(b.orders[i], l) else left;
      var amt := if take == left then amtLeft else share(amtDelta, take, delta);
      var d := Booked(b, i, take, amt, false, now);
      BookedOne(b, i, l, take, amt, now, j);
      GivenToOpenOnly(d, i + 1, l, left - take, amtLeft - amt, delta, amtDelta, share, now, j);
      if d.orders[j].state == Filled {
        LedgerProofs.DistributionLeavesAlone(d, i + 1, l, left - take, amtLeft - amt, delta, amtDelta, share, now, j);
      }
      MayBeFilledOn(b.orders[j], d.orders[j], Distributed(d, i + 1, l, left - take, amtLeft - amt, delta, amtDelta, share, now).orders[j], l);
    }
  }

  /** What the fills part of a report adds to the breaks says nothing about orders. */
  lemma FillsReportBeside(b: Book, l: Line, broker: Totals, now: real, share: (int, int, int) -> int, breaks: seq<Break>)
    requires l in b.totals
    ensures forall n :: OrdersMissingAtBroker(n) in ApplyFills(b, l, broker, now, share, breaks).1 <==> OrdersMissingAtBroker(n) in breaks
  {
    hide Sum, RecentNotices, RoomFrom, Distributed, SameClients, LiveFilled, LiveAmt;
  }

  // ---- In which order an increase is given out ----

  /** What an order of the line can still take. */
  function OpenQty(o: Order, l: Line): int {
    if OnLine(o, l) && (o.state == Accepted || o.state == Partial) && o.filledQty < o.qty then o.qty - o.filledQty else 0
  }

  /** From `b` to `c`: every order before `k` that had room is full, every order after it is as before. */
  ghost predicate OldestFirst(b: Book, c: Book, l: Line, k: nat) {
    && |c.orders| == |b.orders|
    && (forall i :: 0 <= i < |b.orders| && i < k && OpenQty(b.orders[i], l) > 0 ==>
          c.orders[i].filledQty == b.orders[i].qty && c.orders[i].state == Filled)
    && (forall i :: 0 <= i < |b.orders| && (i > k || OpenQty(b.orders[i], l) == 0) ==> c.orders[i] == b.orders[i])
  }

  /** New fills in the order of the orders, all but the last with its rounded part of the amount. */
  ghost predicate InParts(b: Book, c: Book, delta: int, amtDelta: int, share: (int, int, int) -> int, now: real) {
    && b.fills <= c.fills
    && (forall i :: |b.fills| <= i < |c.fills| - 1 ==>
          c.fills[i].order < c.fills[i + 1].order && c.fills[i].amt == share(amtDelta, c.fills[i].qty, delta))
    && (forall i :: |b.fills| <= i < |c.fills| ==> c.fills[i].qty > 0 && !c.fills[i].fromNotice && c.fills[i].ts == now)
  }

  /** From the `i`-th order on, every order before `k` that had room is full and no other but the `k`-th has changed. */
  ghost predicate GivenFrom(b: Book, c: Book, l: Line, i: nat, k: nat) {
    && i <= k && |c.orders| == |b.orders|
    && (forall j :: i <= j < |b.orders| && j < k && OpenQty(b.orders[j], l) > 0 ==>
          c.orders[j].filledQty == b.orders[j].qty && c.orders[j].state == Filled)
    && (forall j :: 0 <= j < |b.orders| && (j < i || j > k || OpenQty(b.orders[j], l) == 0) ==> c.orders[j] == b.orders[j])
  }

  lemma NoneGiven(b: Book, l: Line, i: nat)
    ensures GivenFrom(b, b, l, i, i)
  {}

  lemma PassedOver(b: Book, c: Book, l: Line, i: nat, k: nat)
    requires i < |b.orders| && OpenQty(b.orders[i], l) == 0 && GivenFrom(b, c, l, i + 1, k)
    ensures GivenFrom(b, c, l, i, k)
  {}

  lemma LastGiven(b: Book, l: Line, i: nat, qty: int, amt: int, now: real)
    requires i < |b.orders| && OpenQty(b.orders[i], l) > 0
    ensures GivenFrom(b, Booked(b, i, qty, amt, false, now), l, i, i)
  {}

  lemma FilledUp(b: Book, c: Book, l: Line, i: nat, amt: int, now: real, k: nat)
    requires i < |b.orders| && OpenQty(b.orders[i], l) > 0
    requires GivenFrom(Booked(b, i, OpenQty(b.orders[i], l), amt, false, now), c, l, i + 1, k)
    ensures GivenFrom(b, c, l, i, k)
  {
    var d := Booked(b, i, OpenQty(b.orders[i], l), amt, false, now);
    assert c.orders[i] == d.orders[i];
    assert forall j :: 0 <= j < |b.orders| && j != i ==> d.orders[j] == b.orders[j];
    hide Booked;
  }

  lemma RoomIs(o: Order, l: Line)
    ensures Room(o, l) == OpenQty(o, l)
  {}

  /** An increase goes to the oldest open orders of the line first, each filled before the next gets anything. */
  lemma {:induction false} GivenOldestFirst(b: Book, i: nat, l: Line, left: int, amtLeft: int, delta: int, amtDelta: int, share: (int, int, int) -> int, now: real) returns (k: nat)
    requires i <= |b.orders| && left >= 0
    ensures GivenFrom(b, Distributed(b, i, l, left, amtLeft, delta, amtDelta, share, now), l, i, k)
    decreases |b.orders| - i
  {
    hide SameClients, Booked, GivenFrom, Room, OpenQty;
    k := i;
    if i == |b.orders| || left == 0 {
      NoneGiven(b, l, i);
      return;
    }
    RoomIs(b.orders[i], l);
    if Room(b.orders[i], l) == 0 {
      k := GivenOldestFirst(b, i + 1, l, left, amtLeft, delta, amtDelta, share, now);
      PassedOver(b, Distributed(b, i, l, left, amtLeft, delta, amtDelta, share, now), l, i, k);
    } else {
      var take := if Room(b.orders[i], l) < left then Room(b.orders[i], l) else left;
      var amt := if take == left then amtLeft else share(amtDelta, take, delta);
      var d := Booked(b, i, take, amt, false, now);
      BookedOne(b, i, l, take, amt, now, i);
      if take == left {
        assert Distributed(d, i + 1, l, 0, amtLeft - amt, delta, amtDelta, share, now) == d;
        LastGiven(b, l, i, take, amt, now);
      } else {
        k := GivenOldestFirst(d, i + 1, l, left - take, amtLeft - amt, delta, amtDelta, share, now);
        FilledUp(b, Distributed(b, i, l, left, amtLeft, delta, amtDelta, share, now), l, i, amt, now, k);
      }
    }
  }

  /** The first part is given, and then the rest in parts. */
  lemma FirstPart(b: Book, d: Book, c: Book, delta: int, amtDelta: int, share: (int, int, int) -> int, now: real)
    requires |d.fills| == |b.fills| + 1 && b.fills <= d.fills && InParts(d, c, delta, amtDelta, share, now)
    requires var f := d.fills[|b.fills|];
             && f.qty > 0 && !f.fromNotice && f.ts == now
             && (|c.fills| > |d.fills| ==> f.order < c.fills[|d.fills|].order && f.amt == share(amtDelta, f.qty, delta))
    ensures InParts(b, c, delta, amtDelta, share, now)
  {
    assert c.fills[|b.fills|] == d.fills[|b.fills|];
  }

  lemma NoParts(b: Book, delta: int, amtDelta: int, share: (int, int, int) -> int, now: real)
    ensures InParts(b, b, delta, amtDelta, share, now)
  {}

  lemma {:induction false} GivenInParts(b: Book, i: nat, l: Line, left: int, amtLeft: int, delta: int, amtDelta: int, share: (int, int, int) -> int, now: real)
    requires i <= |b.orders| && left >= 0
    ensures var c := Distributed(b, i, l, left, amtLeft, delta, amtDelta, share, now);
            && InParts(b, c, delta, amtDelta, share, now) && |c.fills| >= |b.fills|
            && (|c.fills| > |b.fills| ==> c.fills[|b.fills|].order >= i)
    decreases |b.orders| - i
  {
    hide SameClients, InParts, Room;
    if i == |b.orders| || left == 0 {
      NoParts(b, delta, amtDelta, share, now);
    } else if Room(b.orders[i], l) == 0 {
      GivenInParts(b, i + 1, l, left, amtLeft, delta, amtDelta, share, now);
    } else {
      var take := if Room(b.orders[i], l) < left then Room(b.orders[i], l) else left;
      var amt := if take == left then amtLeft else share(amtDelta, take, delta);
      var d := Booked(b, i, take, amt, false, now);
      GivenInParts(d, i + 1, l, left - take, amtLeft - amt, delta, amtDelta, share, now);
      var c := Distributed(d, i + 1, l, left - take, amtLeft - amt, delta, amtDelta, share, now);
      assert c == Distributed(b, i, l, left, amtLeft, delta, amtDelta, share, now);
      assert take == left ==> c == d;
      hide Distributed;
      FirstPart(b, d, c, delta, amtDelta, share, now);
      FirstFill(b, d, c, delta, amtDelta, share, now);
    }
  }

  lemma FirstFill(b: Book, d: Book, c: Book, delta: int, amtDelta: int, share: (int, int, int) -> int, now: real)
    requires |d.fills| == |b.fills| + 1 && InParts(d, c, delta, amtDelta, share, now)
    ensures |c.fills| > |b.fills| && c.fills[|b.fills|] == d.fills[|b.fills|]
  {}

  /** A report whose increase is given out: oldest orders first, in rounded parts. */
  lemma IncreaseIsGivenOldestFirst(b: Book, l: Line, broker: Totals, now: real, share: (int, int, int) -> int, breaks: seq<Break>) returns (k: nat)
    requires l in b.totals
    ensures var c := ApplyFills(b, l, broker, now, share, breaks).0;
            OldestFirst(b, c, l, k) &&
            InParts(b, c, LedgerProofs.Increase(b, l, broker), broker.fillAmt - b.totals[l].fillAmt - Sum(b.orders, LiveAmt(l)), share, now)
  {
    hide Sum, RecentNotices, RoomFrom, Distributed, SameClients, LiveFilled, LiveAmt;
    var delta := LedgerProofs.Increase(b, l, broker);
    var amtDelta := broker.fillAmt - b.totals[l].fillAmt - Sum(b.orders, LiveAmt(l));
    k := 0;
    if delta > 0 {
      k := GivenOldestFirst(b, 0, l, delta, amtDelta, delta, amtDelta, share, now);
      GivenInParts(b, 0, l, delta, amtDelta, delta, amtDelta, share, now);
    }
    if ApplyFills(b, l, broker, now, share, breaks).0 == b {
      k := 0;
      NothingGiven(b, l);
    }
  }

  lemma NothingGiven(b: Book, l: Line)
    ensures OldestFirst(b, b, l, 0)
  {}

  function OpenTotal(os: seq<Order>, i: nat, l: Line): int
    requires i <= |os|
    decreases |os| - i
  {
    if i == |os| then 0 else OpenQty(os[i], l) + OpenTotal(os, i + 1, l)
  }

  lemma {:induction false} RoomIsOpen(os: seq<Order>, i: nat, l: Line)
    requires i <= |os|
    ensures RoomFrom(os, i, l) == OpenTotal(os, i, l)
    decreases |os| - i
  {
    if i == |os| {
    } else {
      RoomIsOpen(os, i + 1, l);
    }
  }

  /** What is reported about an increase: one larger than all open orders can take, and one that is negative and not
      explained by recent notices; then no fill is booked. */
  lemma FillBreaksMean(b: Book, l: Line, broker: Totals, now: real, share: (int, int, int) -> int, breaks: seq<Break>)
    requires l in b.totals
    ensures var (c, all) := ApplyFills(b, l, broker, now, share, breaks);
            var delta, open := LedgerProofs.Increase(b, l, broker), OpenTotal(b.orders, 0, l);
            && (delta > open && delta > 0 ==> c == b && all == breaks + [FillsExceedOrders(delta, open)])
            && (delta == 0 ==> c == b && all == breaks)
            && (0 < delta <= open ==> all == breaks)
            && (delta < 0 ==> c == b && (all == breaks || all == breaks + [FillsBelowLedger(delta)]))
  {
    hide Sum, RecentNotices, Distributed, SameClients, RoomFrom;
    RoomIsOpen(b.orders, 0, l);
  }

  // ---- The closing report ----

  /** The orders that a closing looks at whose state is as asked. */
  function InState(os: seq<Order>, i: nat, date: Date, p: OrderState -> bool): set<nat>
    requires i <= |os|
  {
    set j: nat | i <= j < |os| && InScope(os, j, date) && p(os[j].state)
  }

  lemma {:induction false} CountIsSize(os: seq<Order>, i: nat, date: Date, p: OrderState -> bool)
    requires i <= |os|
    ensures ScopeSum(os, i, date, CountOf(p)) == |InState(os, i, date, p)|
    decreases |os| - i
  {
    if i == |os| {
      assert InState(os, i, date, p) == {};
    } else {
      CountIsSize(os, i + 1, date, p);
      assert CountOf(p)(os[i]) == if p(os[i].state) then 1 else 0;
      OneMoreInState(os, i, date, p);
      hide InScope, InState, CountOf;
    }
  }

  lemma OneMoreInState(os: seq<Order>, i: nat, date: Date, p: OrderState -> bool)
    requires i < |os|
    ensures |InState(os, i, date, p)| == |InState(os, i + 1, date, p)| + if InScope(os, i, date) && p(os[i].state) then 1 else 0
  {
    hide InScope;
    var rest := InState(os, i + 1, date, p);
    assert i !in rest;
    assert InState(os, i, date, p) == if InScope(os, i, date) && p(os[i].state) then rest + {i} else rest;
  }

  /** Quantity filled, amount filled and quantity still open over the orders looked at. */
  function SentTotals(os: seq<Order>, i: nat, date: Date): (int, int, int)
    requires i <= |os|
    decreases |os| - i
  {
    if i == |os| then (0, 0, 0)
    else
      var o, (qty, amt, open) := os[i], SentTotals(os, i + 1, date);
      if !InScope(os, i, date) || !WasSent(o.state) then (qty, amt, open)
      else (qty + o.filledQty, amt + o.filledAmt, open + if o.state == Accepted || o.state == Partial then o.qty - o.filledQty else 0)
  }

  lemma {:induction false} TotalsAre(os: seq<Order>, i: nat, date: Date)
    requires i <= |os|
    ensures SentTotals(os, i, date) ==
            (ScopeSum(os, i, date, FilledIf(IsLive)), ScopeSum(os, i, date, AmtIf(IsLive)), ScopeSum(os, i, date, OpenIf(IsFillable)))
    decreases |os| - i
  {
    if i == |os| {
    } else {
      TotalsAre(os, i + 1, date);
      var o := os[i];
      assert FilledIf(IsLive)(o) == if IsLive(o.state) then o.filledQty else 0;
      assert AmtIf(IsLive)(o) == if IsLive(o.state) then o.filledAmt else 0;
      assert OpenIf(IsFillable)(o) == if IsFillable(o.state) then o.qty - o.filledQty else 0;
      hide InScope;
    }
  }

  /** The closing report counts the day's orders by what became of them, and adds up what was filled and what was not. */
  lemma SummaryMeans(b: Book, date: Date, now: real)
    ensures var s, os := DaySummary(b.orders, date, now), b.orders;
            && s.ts == now
            && s.sent == |set j: nat | j < |os| && InScope(os, j, date) && os[j].state in {Accepted, Partial, Filled, Expired}|
            && s.rejected == |set j: nat | j < |os| && InScope(os, j, date) && os[j].state == Rejected|
            && s.notSent == |set j: nat | j < |os| && InScope(os, j, date) && os[j].state == NotSent|
            && s.expiredOrders == |set j: nat | j < |os| && InScope(os, j, date) && os[j].state in {Accepted, Partial}|
            && (s.filledQty, s.filledAmt, s.expiredQty) == SentTotals(os, 0, date)
  {
    hide InScope, ScopeSum;
    var os := b.orders;
    CountIsSize(os, 0, date, IsLive);
    CountIsSize(os, 0, date, IsRejected);
    CountIsSize(os, 0, date, IsNotSent);
    CountIsSize(os, 0, date, IsFillable);
    TotalsAre(os, 0, date);
    hide SentTotals;
    assert InState(os, 0, date, IsLive) == set j: nat | j < |os| && InScope(os, j, date) && os[j].state in {Accepted, Partial, Filled, Expired};
    assert InState(os, 0, date, IsRejected) == set j: nat | j < |os| && InScope(os, j, date) && os[j].state == Rejected;
    assert InState(os, 0, date, IsNotSent) == set j: nat | j < |os| && InScope(os, j, date) && os[j].state == NotSent;
    assert InState(os, 0, date, IsFillable) == set j: nat | j < |os| && InScope(os, j, date) && os[j].state in {Accepted, Partial};
  }

  /** Closing: refused exactly when the day was closed, when an order looked at is of unknown fate or not sent yet, or
      when breaks are open; else every open order looked at expires, and no other order changes. */
  lemma ClosingMeans(b: Book, date: Date, openBreaks: int, now: real)
    ensures var (c, r) := CloseDay(b, date, openBreaks, now);
            var doubt := exists i :: 0 <= i < |b.orders| && InScope(b.orders, i, date) && b.orders[i].state in {PendingSubmit, Unknown};
            && (date in b.closed ==> c == b && r == Closed(b.closed[date]))
            && (date !in b.closed && doubt ==> c == b && r.HasUnresolved?)
            && (date !in b.closed && !doubt && openBreaks != 0 ==> c == b && r == HasBreaks(openBreaks))
            && (date !in b.closed && !doubt && openBreaks == 0 ==>
                  && r == Closed(DaySummary(b.orders, date, now)) && |c.orders| == |b.orders|
                  && c == b.(orders := c.orders, closed := b.closed[date := DaySummary(b.orders, date, now)])
                  && forall i :: 0 <= i < |b.orders| ==>
                       c.orders[i] == if InScope(b.orders, i, date) && b.orders[i].state in {Accepted, Partial}
                                      then b.orders[i].(state := Expired) else b.orders[i])
  {
    hide InScope, DaySummary, UnresolvedIds;
  }

  /** The orders of the day from the `i`-th on. */
  function DayFrom(os: seq<Order>, i: nat, date: Date): set<nat> {
    set j: nat | i <= j < |os| && os[j].date == date
  }

  /** An order is looked at exactly when fewer than a hundred thousand orders of its day came after it. */
  lemma {:induction false} ScopeMeans(os: seq<Order>, i: nat, date: Date)
    requires i < |os|
    ensures InScope(os, i, date) <==> os[i].date == date && |DayFrom(os, i + 1, date)| < 100_000
  {
    DayCountIsSize(os, i + 1, date);
    hide DayFrom, DayCount;
  }

  lemma {:induction false} DayCountIsSize(os: seq<Order>, i: nat, date: Date)
    requires i <= |os|
    ensures DayCount(os, i, date) == |DayFrom(os, i, date)|
    decreases |os| - i
  {
    if i == |os| {
      assert DayFrom(os, i, date) == {};
    } else {
      DayCountIsSize(os, i + 1, date);
      OneMoreOfDay(os, i, date);
      hide DayFrom;
    }
  }

  lemma OneMoreOfDay(os: seq<Order>, i: nat, date: Date)
    requires i < |os|
    ensures |DayFrom(os, i, date)| == |DayFrom(os, i + 1, date)| + if os[i].date == date then 1 else 0
  {
    var rest := DayFrom(os, i + 1, date);
    assert i !in rest;
    assert DayFrom(os, i, date) == if os[i].date == date then rest + {i} else rest;
  }
}
