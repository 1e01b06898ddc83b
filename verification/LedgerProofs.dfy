/** What the order ledger keeps: fills never exceed orders, the fills log explains every order, reconciliation
    makes the book agree with the broker to the last unit, and what was in the book when a day closed stays as it was. */
module LedgerProofs {
  import opened Wrappers
  import opened OrderBook

  // ---- The invariant ----

  ghost predicate OrderOk(o: Order) {
    && o.qty > 0 && 0 <= o.filledQty <= o.qty
    && (o.state == Filled <==> IsLive(o.state) && o.filledQty == o.qty)
    && (o.state == Partial ==> o.filledQty > 0)
    && (!IsLive(o.state) || o.state == Accepted ==> o.filledQty == 0 && o.filledAmt == 0)
  }

  function FillQty(fs: seq<Fill>, i: nat): int {
    if fs == [] then 0 else FillQty(fs[..|fs| - 1], i) + if fs[|fs| - 1].order == i then fs[|fs| - 1].qty else 0
  }

  function FillAmt(fs: seq<Fill>, i: nat): int {
    if fs == [] then 0 else FillAmt(fs[..|fs| - 1], i) + if fs[|fs| - 1].order == i then fs[|fs| - 1].amt else 0
  }

  ghost predicate LogExplains(os: seq<Order>, fs: seq<Fill>) {
    && (forall f :: f in fs ==> f.order < |os| && f.qty > 0)
    && (forall i :: 0 <= i < |os| ==> FillQty(fs, i) == os[i].filledQty && FillAmt(fs, i) == os[i].filledAmt)
  }

  ghost predicate DistinctClients(os: seq<Order>) {
    forall i, j :: 0 <= i < j < |os| ==> os[i].clientId != os[j].clientId
  }

  ghost predicate Ok(b: Book) {
    && (forall i :: 0 <= i < |b.orders| ==> OrderOk(b.orders[i]))
    && LogExplains(b.orders, b.fills)
    && DistinctClients(b.orders)
    && (forall i :: 0 <= i < |b.orders| && b.orders[i].state == Expired ==> b.orders[i].date in b.closed)
  }

  // ---- Booking a fill ----

  lemma {:induction false} FillsMore(fs: seq<Fill>, f: Fill, i: nat)
    ensures FillQty(fs + [f], i) == FillQty(fs, i) + if f.order == i then f.qty else 0
    ensures FillAmt(fs + [f], i) == FillAmt(fs, i) + if f.order == i then f.amt else 0
  {
    assert (fs + [f])[..|fs|] == fs;
  }

  lemma BookKeeps(b: Book, i: nat, qty: int, amt: int, fromNotice: bool, ts: real)
    requires Ok(b) && i < |b.orders| && IsFillable(b.orders[i].state) && 0 < qty <= b.orders[i].qty - b.orders[i].filledQty
    ensures Ok(Booked(b, i, qty, amt, fromNotice, ts))
  {
    var f := Fill(i, qty, amt, fromNotice, ts);
    forall j | 0 <= j < |b.orders|
      ensures FillQty(b.fills + [f], j) == FillQty(b.fills, j) + if i == j then qty else 0
      ensures FillAmt(b.fills + [f], j) == FillAmt(b.fills, j) + if i == j then amt else 0
    {
      FillsMore(b.fills, f, j);
    }
  }

  // ---- Operations that only move states ----

  /** Orders changed in state only, without breaking what each state promises. */
  ghost predicate StatesMoved(os: seq<Order>, ps: seq<Order>) {
    && |os| == |ps|
    && forall i :: 0 <= i < |os| ==>
         && ps[i] == os[i].(state := ps[i].state, brokerNo := ps[i].brokerNo)
         && (OrderOk(os[i]) ==> OrderOk(ps[i]))
  }

  lemma MovingKeeps(b: Book, ps: seq<Order>, closed: map<Date, Summary>)
    requires Ok(b) && StatesMoved(b.orders, ps) && b.closed.Keys <= closed.Keys
    requires forall i :: 0 <= i < |ps| && ps[i].state == Expired ==> ps[i].date in closed
    ensures Ok(b.(orders := ps, closed := closed))
  {}

  lemma PlaceKeeps(b: Book, d: Draft, now: real)
    requires Ok(b)
    ensures Ok(Step(b, Place(d, now)))
  {
    if FindClient(b.orders, d.clientId) == None && d.qty > 0 && d.price >= 0 {
      var n := |b.orders|;
      NoFillsBeyond(b.fills, n);
      var c := Step(b, Place(d, now));
      assert c.orders[..n] == b.orders;
    }
  }

  lemma {:induction false} NoFillsBeyond(fs: seq<Fill>, n: nat)
    requires forall f :: f in fs ==> f.order < n
    ensures FillQty(fs, n) == 0 && FillAmt(fs, n) == 0
    decreases |fs|
  {
    if fs == [] {
    } else {
      NoFillsBeyond(fs[..|fs| - 1], n);
    }
  }

  // ---- Reconciliation ----

  lemma ResolveKeeps(b: Book, l: Line, to: OrderState, now: real)
    requires Ok(b) && to in {Accepted, NotSent}
    ensures Ok(Resolved(b, l, to, now))
    ensures Sum(Resolved(b, l, to, now).orders, LiveFilled(l)) == Sum(b.orders, LiveFilled(l))
    ensures Sum(Resolved(b, l, to, now).orders, LiveAmt(l)) == Sum(b.orders, LiveAmt(l))
  {
    ResolvedMoves(b, l, to, now);
    hide Ok, StatesMoved, ResolveOne, LiveFilled, LiveAmt, Sum;
    MovingKeeps(b, Resolved(b, l, to, now).orders, b.closed);
    SumSame(Resolved(b, l, to, now).orders, b.orders, LiveFilled(l));
    SumSame(Resolved(b, l, to, now).orders, b.orders, LiveAmt(l));
  }

  lemma ResolvedMoves(b: Book, l: Line, to: OrderState, now: real)
    requires Ok(b) && to in {Accepted, NotSent}
    ensures var ps := Resolved(b, l, to, now).orders;
            && StatesMoved(b.orders, ps)
            && (forall i :: 0 <= i < |ps| && ps[i].state == Expired ==> ps[i].date in b.closed)
            && (forall i :: 0 <= i < |ps| ==> LiveFilled(l)(ps[i]) == LiveFilled(l)(b.orders[i]) && LiveAmt(l)(ps[i]) == LiveAmt(l)(b.orders[i]))
  {
    hide LogExplains, DistinctClients;
    forall i | 0 <= i < |b.orders|
      ensures var o, p := b.orders[i], ResolveOne(b.orders[i], l, to, now);
              LiveFilled(l)(p) == LiveFilled(l)(o) && LiveAmt(l)(p) == LiveAmt(l)(o)
    {
      assert OrderOk(b.orders[i]);
    }
  }

  lemma BookingAdds(b: Book, i: nat, l: Line, qty: int, amt: int, ts: real)
    requires i < |b.orders| && Room(b.orders[i], l) >= qty > 0
    ensures var c := Booked(b, i, qty, amt, false, ts);
            && Sum(c.orders, LiveFilled(l)) == Sum(b.orders, LiveFilled(l)) + qty
            && Sum(c.orders, LiveAmt(l)) == Sum(b.orders, LiveAmt(l)) + amt
            && RoomFrom(c.orders, i + 1, l) == RoomFrom(b.orders, i + 1, l)
  {
    var c := Booked(b, i, qty, amt, false, ts);
    SumUpdate(b.orders, i, c.orders[i], LiveFilled(l));
    SumUpdate(b.orders, i, c.orders[i], LiveAmt(l));
    RoomUntouched(b.orders, c.orders, i + 1, l);
  }

  lemma {:induction false} RoomUntouched(os: seq<Order>, ps: seq<Order>, i: nat, l: Line)
    requires |os| == |ps| && i <= |os| && forall j :: i <= j < |os| ==> os[j] == ps[j]
    ensures RoomFrom(os, i, l) == RoomFrom(ps, i, l)
    decreases |os| - i
  {
    if i == |os| {
    } else {
      RoomUntouched(os, ps, i + 1, l);
    }
  }

  /** Giving out an increase that fits gives out all of it, quantity and amount, however parts are rounded. */
  lemma {:induction false} DistributionIsExact(b: Book, i: nat, l: Line, left: int, amtLeft: int, delta: int, amtDelta: int, share: (int, int, int) -> int, now: real)
    requires Ok(b) && i <= |b.orders| && 0 <= left <= RoomFrom(b.orders, i, l) && (left == 0 ==> amtLeft == 0)
    ensures var c := Distributed(b, i, l, left, amtLeft, delta, amtDelta, share, now);
            && Ok(c)
            && Sum(c.orders, LiveFilled(l)) == Sum(b.orders, LiveFilled(l)) + left
            && Sum(c.orders, LiveAmt(l)) == Sum(b.orders, LiveAmt(l)) + amtLeft
    decreases |b.orders| - i
  {
    hide Ok, Sum, LiveFilled, LiveAmt, SameClients;
    if i < |b.orders| && left > 0 {
      if Room(b.orders[i], l) == 0 {
        DistributionIsExact(b, i + 1, l, left, amtLeft, delta, amtDelta, share, now);
      } else {
        var take := if Room(b.orders[i], l) < left then Room(b.orders[i], l) else left;
        var amt := if take == left then amtLeft else share(amtDelta, take, delta);
        BookKeeps(b, i, take, amt, false, now);
        BookingAdds(b, i, l, take, amt, now);
        DistributionIsExact(Booked(b, i, take, amt, false, now), i + 1, l, left - take, amtLeft - amt, delta, amtDelta, share, now);
      }
    }
  }

  lemma FillsKeep(b: Book, l: Line, broker: Totals, now: real, share: (int, int, int) -> int, breaks: seq<Break>)
    requires Ok(b) && l in b.totals
    ensures Ok(ApplyFills(b, l, broker, now, share, breaks).0)
  {
    hide Ok, Sum, RecentNotices;
    var delta := broker.fillQty - b.totals[l].fillQty - Sum(b.orders, LiveFilled(l));
    var amtDelta := broker.fillAmt - b.totals[l].fillAmt - Sum(b.orders, LiveAmt(l));
    if 0 < delta <= RoomFrom(b.orders, 0, l) {
      DistributionIsExact(b, 0, l, delta, amtDelta, delta, amtDelta, share, now);
    }
  }

  lemma TotalsKeep(b: Book, l: Line, broker: Totals, now: real, share: (int, int, int) -> int)
    requires Ok(b)
    ensures Ok(ApplyTotals(b, l, broker, now, share).0)
  {
    hide Ok, ApplyFills, Sum, LiveQty, UnknownQty, ResolveOne, SameClients;
    if l in b.totals {
      var extra := broker.ordQty - b.totals[l].ordQty - Sum(b.orders, LiveQty(l));
      ResolveKeeps(b, l, Accepted, now);
      ResolveKeeps(b, l, NotSent, now);
      if extra > 0 {
        FillsKeep(Resolved(b, l, Accepted, now), l, broker, now, share, []);
      } else {
        FillsKeep(Resolved(b, l, NotSent, now), l, broker, now, share, if extra < 0 then [OrdersMissingAtBroker(-extra)] else []);
      }
    }
  }

  /** How much the broker has filled beyond the ledger, before a report is applied. */
  function Increase(b: Book, l: Line, broker: Totals): int
    requires l in b.totals
  {
    broker.fillQty - b.totals[l].fillQty - Sum(b.orders, LiveFilled(l))
  }

  /** Applying a report that gives out a positive increase makes the line's filled quantity and amount exactly
      the broker's beyond the baseline; a report that shows orders the ledger cannot explain changes nothing;
      and a report that does not give out an increase books no fill. */
  lemma ReconciliationIsExact(b: Book, l: Line, broker: Totals, now: real, share: (int, int, int) -> int)
    requires Ok(b)
    ensures var (c, breaks) := ApplyTotals(b, l, broker, now, share);
            && ((exists x :: UnexplainedBrokerOrders(x) in breaks) || l !in b.totals ==> c == b)
            && (c.fills != b.fills ==>
                  && l in b.totals && Increase(b, l, broker) > 0
                  && Sum(c.orders, LiveFilled(l)) == broker.fillQty - b.totals[l].fillQty
                  && Sum(c.orders, LiveAmt(l)) == broker.fillAmt - b.totals[l].fillAmt)
            && (l in b.totals && Increase(b, l, broker) > 0 && (forall x :: UnexplainedBrokerOrders(x) !in breaks)
                && (forall d, r :: FillsExceedOrders(d, r) !in breaks) ==>
                  && Sum(c.orders, LiveFilled(l)) == broker.fillQty - b.totals[l].fillQty
                  && Sum(c.orders, LiveAmt(l)) == broker.fillAmt - b.totals[l].fillAmt)
  {
    hide Ok, ApplyFills, Sum;
    if l in b.totals {
      var extra := broker.ordQty - b.totals[l].ordQty - Sum(b.orders, LiveQty(l));
      ResolveKeeps(b, l, Accepted, now);
      ResolveKeeps(b, l, NotSent, now);
      if extra <= 0 {
        FillsExact(Resolved(b, l, NotSent, now), l, broker, now, share, if extra < 0 then [OrdersMissingAtBroker(-extra)] else []);
      } else if Sum(b.orders, UnknownQty(l)) == extra {
        FillsExact(Resolved(b, l, Accepted, now), l, broker, now, share, []);
      } else {
        assert UnexplainedBrokerOrders(extra) in ApplyTotals(b, l, broker, now, share).1;
      }
    }
  }

  lemma FillsExact(b: Book, l: Line, broker: Totals, now: real, share: (int, int, int) -> int, breaks: seq<Break>)
    requires Ok(b) && l in b.totals && forall x :: UnexplainedBrokerOrders(x) !in breaks
    ensures var (c, all) := ApplyFills(b, l, broker, now, share, breaks);
            && (forall x :: UnexplainedBrokerOrders(x) !in all)
            && (Increase(b, l, broker) <= 0 ==> c == b)
            && (c != b ==>
                  && Increase(b, l, broker) > 0
                  && Sum(c.orders, LiveFilled(l)) == broker.fillQty - b.totals[l].fillQty
                  && Sum(c.orders, LiveAmt(l)) == broker.fillAmt - b.totals[l].fillAmt)
            && (Increase(b, l, broker) > 0 && (forall d, r :: FillsExceedOrders(d, r) !in all) ==>
                  && Sum(c.orders, LiveFilled(l)) == broker.fillQty - b.totals[l].fillQty
                  && Sum(c.orders, LiveAmt(l)) == broker.fillAmt - b.totals[l].fillAmt)
  {
    hide Ok, Sum, RecentNotices, Distributed, RoomFrom;
    var delta := Increase(b, l, broker);
    var amtDelta := broker.fillAmt - b.totals[l].fillAmt - Sum(b.orders, LiveAmt(l));
    if delta > 0 {
      if delta <= RoomFrom(b.orders, 0, l) {
        DistributionIsExact(b, 0, l, delta, amtDelta, delta, amtDelta, share, now);
      } else {
        assert FillsExceedOrders(delta, RoomFrom(b.orders, 0, l)) in ApplyFills(b, l, broker, now, share, breaks).1;
      }
    }
  }

  lemma NoticeKeeps(b: Book, date: Date, number: string, qty: int, price: int, key: string, now: real)
    requires Ok(b)
    ensures Ok(ApplyNotice(b, date, number, qty, price, key, now).0)
  {
    var found := FindBrokerNo(b.orders, date, number);
    if found.Some? {
      var o := b.orders[found.value];
      if IsFillable(o.state) && 0 < qty <= o.qty - o.filledQty {
        BookKeeps(b, found.value, qty, qty * price, true, now);
        var c := Booked(b, found.value, qty, qty * price, true, now);
        hide LogExplains, DistinctClients, OrderOk, Booked;
        assert Ok(c.(notices := b.notices + [Notice(key, found.value, qty, qty * price, now)]));
      }
    }
  }

  lemma CloseKeeps(b: Book, date: Date, openBreaks: int, now: real)
    requires Ok(b)
    ensures Ok(CloseDay(b, date, openBreaks, now).0)
  {
    hide LogExplains, DistinctClients, DaySummary, DayCount;
    if date !in b.closed && !AnyUnresolved(b.orders, date) && openBreaks == 0 {
      var ps := seq(|b.orders|, i requires 0 <= i < |b.orders| => ClosedOrder(b.orders, i, date));
      MovingKeeps(b, ps, b.closed[date := DaySummary(b.orders, date, now)]);
    }
  }

  lemma StepKeeps(b: Book, e: Event)
    requires Ok(b)
    ensures Ok(Step(b, e))
  {
    match e
    case Place(d, now) => PlaceKeeps(b, d, now);
    case SubmitResult(i, s, no) =>
      if i < |b.orders| && b.orders[i].state == PendingSubmit && s in {Accepted, Rejected, Unknown} {
        MovingKeeps(b, Marked(b, i, s, no).orders, b.closed);
      }
    case Restart => MovingKeeps(b, Recovered(b).orders, b.closed);
    case TotalsBaseline(l, t) => OtherTables(b, Step(b, e));
    case HoldingsBaseline(d, h) => OtherTables(b, Step(b, e));
    case BrokerTotals(l, t, now, share) =>
      hide Ok, ApplyTotals;
      TotalsKeep(b, l, t, now, share);
    case FillNotice(d, number, qty, price, key, now) =>
      hide Ok, ApplyNotice;
      NoticeKeeps(b, d, number, qty, price, key, now);
    case Close(d, n, now) =>
      hide Ok, CloseDay;
      CloseKeeps(b, d, n, now);
  }

  lemma OtherTables(b: Book, c: Book)
    requires Ok(b) && c.orders == b.orders && c.fills == b.fills && c.closed == b.closed
    ensures Ok(c)
  {}

  /** After any sequence of operations, with any broker totals and notices in any order: every order keeps
      0 <= filled <= quantity, is FILLED exactly when it is live and full, has no fills unless it reached the
      broker, is explained by the fills log in quantity and amount, and client ids name one order each. */
  lemma {:induction false} RunKeeps(es: seq<Event>)
    ensures Ok(Run(EMPTY, es))
    decreases |es|
  {
    hide Ok, Step;
    if es == [] {
      assert Ok(EMPTY) by { EmptyOk(); }
    } else {
      RunKeeps(es[..|es| - 1]);
      StepKeeps(Run(EMPTY, es[..|es| - 1]), es[|es| - 1]);
    }
  }

  lemma EmptyOk()
    ensures Ok(EMPTY)
  {}

  // ---- A closed day ----

  lemma {:induction false} DistributionLeavesAlone(b: Book, i: nat, l: Line, left: int, amtLeft: int, delta: int, amtDelta: int, share: (int, int, int) -> int, now: real, j: nat)
    requires i <= |b.orders| && j < |b.orders| && !IsFillable(b.orders[j].state)
    ensures var c := Distributed(b, i, l, left, amtLeft, delta, amtDelta, share, now);
            |c.orders| == |b.orders| && c.orders[j] == b.orders[j] && c.closed == b.closed
    decreases |b.orders| - i
  {
    if i < |b.orders| && left != 0 {
      if Room(b.orders[i], l) == 0 {
        DistributionLeavesAlone(b, i + 1, l, left, amtLeft, delta, amtDelta, share, now, j);
      } else {
        var take := if Room(b.orders[i], l) < left then Room(b.orders[i], l) else left;
        var amt := if take == left then amtLeft else share(amtDelta, take, delta);
        DistributionLeavesAlone(Booked(b, i, take, amt, false, now), i + 1, l, left - take, amtLeft - amt, delta, amtDelta, share, now, j);
      }
    }
  }

  lemma FillsLeaveAlone(b: Book, l: Line, broker: Totals, now: real, share: (int, int, int) -> int, breaks: seq<Break>, j: nat)
    requires l in b.totals && j < |b.orders| && !IsFillable(b.orders[j].state)
    ensures var c := ApplyFills(b, l, broker, now, share, breaks).0;
            |c.orders| == |b.orders| && c.orders[j] == b.orders[j] && c.closed == b.closed
  {
    hide Sum, RecentNotices, RoomFrom, Distributed;
    var delta := Increase(b, l, broker);
    var amtDelta := broker.fillAmt - b.totals[l].fillAmt - Sum(b.orders, LiveAmt(l));
    DistributionLeavesAlone(b, 0, l, delta, amtDelta, delta, amtDelta, share, now, j);
  }

  lemma TotalsLeaveFinal(b: Book, l: Line, t: Totals, now: real, share: (int, int, int) -> int, i: nat)
    requires i < |b.orders| && IsFinal(b.orders[i].state)
    ensures var c := ApplyTotals(b, l, t, now, share).0;
            |c.orders| == |b.orders| && c.orders[i] == b.orders[i] && c.closed == b.closed
  {
    hide ApplyFills, Sum;
    if l in b.totals {
      var extra := t.ordQty - b.totals[l].ordQty - Sum(b.orders, LiveQty(l));
      FillsLeaveAlone(Resolved(b, l, Accepted, now), l, t, now, share, [], i);
      FillsLeaveAlone(Resolved(b, l, NotSent, now), l, t, now, share, if extra < 0 then [OrdersMissingAtBroker(-extra)] else [], i);
    }
  }

  /** No operation touches an order that has reached a final state, and no closed day is closed again. */
  lemma FinalStays(b: Book, e: Event, i: nat)
    requires i < |b.orders| && IsFinal(b.orders[i].state)
    ensures var c := Step(b, e);
            && i < |c.orders| && c.orders[i] == b.orders[i]
            && forall d :: d in b.closed ==> d in c.closed && c.closed[d] == b.closed[d]
  {
    match e
    case BrokerTotals(l, t, now, share) =>
      hide ApplyTotals;
      TotalsLeaveFinal(b, l, t, now, share, i);
    case FillNotice(d, number, qty, price, key, now) => hide StripZeros;
    case Close(d, n, now) => hide DaySummary, InScope;
    case _ =>
  }

  lemma {:induction false} FinalStaysForever(b: Book, es: seq<Event>, i: nat)
    requires i < |b.orders| && IsFinal(b.orders[i].state)
    ensures var c := Run(b, es);
            && i < |c.orders| && c.orders[i] == b.orders[i]
            && forall d :: d in b.closed ==> d in c.closed && c.closed[d] == b.closed[d]
    decreases |es|
  {
    hide Step;
    if es == [] {
    } else {
      FinalStaysForever(b, es[..|es| - 1], i);
      FinalStays(Run(b, es[..|es| - 1]), es[|es| - 1], i);
    }
  }

  /** The effect of closing: in the day's newest hundred thousand orders nothing stays open. */
  lemma CloseMakesFinal(b: Book, date: Date, now: real, i: nat)
    requires Ok(b) && date !in b.closed && !AnyUnresolved(b.orders, date) && i < |b.orders| && b.orders[i].date == date
    ensures IsFinal(CloseDay(b, date, 0, now).0.orders[i].state) <==> InScope(b.orders, i, date) || IsFinal(b.orders[i].state)
  {
    hide LogExplains, DistinctClients, DaySummary;
    assert InScope(b.orders, i, date) ==> !Unresolved(b.orders[i].state);
  }

  lemma {:induction false} DistributionFillsAll(b: Book, i: nat, l: Line, amtLeft: int, delta: int, amtDelta: int, share: (int, int, int) -> int, now: real, j: nat)
    requires i <= j < |b.orders| && Room(b.orders[j], l) > 0
    ensures var c := Distributed(b, i, l, RoomFrom(b.orders, i, l), amtLeft, delta, amtDelta, share, now);
            c.orders[j].state == Filled
    decreases |b.orders| - i
  {
    hide SameClients, Distributed, RoomFrom, Booked;
    var left := RoomFrom(b.orders, i, l);
    RoomPositive(b.orders, i, l, j);
    var take := Room(b.orders[i], l);
    if take == 0 {
      NoRoomHere(b, i, l, amtLeft, delta, amtDelta, share, now);
      DistributionFillsAll(b, i + 1, l, amtLeft, delta, amtDelta, share, now, j);
    } else {
      var amt := if take == left then amtLeft else share(amtDelta, take, delta);
      var c := Booked(b, i, take, amt, false, now);
      FilledFully(b, i, l, amtLeft, delta, amtDelta, share, now);
      hide Room;
      if j == i {
        DistributionLeavesAlone(c, i + 1, l, left - take, amtLeft - amt, delta, amtDelta, share, now, j);
      } else {
        assert c.orders[j] == b.orders[j] by { BookingElsewhere(b, i, take, amt, now, j); }
        DistributionFillsAll(c, i + 1, l, amtLeft - amt, delta, amtDelta, share, now, j);
      }
    }
  }

  lemma NoRoomHere(b: Book, i: nat, l: Line, amtLeft: int, delta: int, amtDelta: int, share: (int, int, int) -> int, now: real)
    requires i < |b.orders| && Room(b.orders[i], l) == 0
    ensures RoomFrom(b.orders, i, l) == RoomFrom(b.orders, i + 1, l)
    ensures RoomFrom(b.orders, i, l) > 0 ==>
              Distributed(b, i, l, RoomFrom(b.orders, i, l), amtLeft, delta, amtDelta, share, now) ==
              Distributed(b, i + 1, l, RoomFrom(b.orders, i + 1, l), amtLeft, delta, amtDelta, share, now)
  {
    hide SameClients;
  }

  lemma FilledFully(b: Book, i: nat, l: Line, amtLeft: int, delta: int, amtDelta: int, share: (int, int, int) -> int, now: real)
    requires i < |b.orders| && Room(b.orders[i], l) > 0
    ensures var take, left := Room(b.orders[i], l), RoomFrom(b.orders, i, l);
            var amt := if take == left then amtLeft else share(amtDelta, take, delta);
            var c := Booked(b, i, take, amt, false, now);
            && c.orders[i].state == Filled && |c.orders| == |b.orders| && left - take == RoomFrom(c.orders, i + 1, l)
            && Distributed(b, i, l, left, amtLeft, delta, amtDelta, share, now) ==
                 Distributed(c, i + 1, l, left - take, amtLeft - amt, delta, amtDelta, share, now)
  {
    hide SameClients;
    var take, left := Room(b.orders[i], l), RoomFrom(b.orders, i, l);
    assert left == take + RoomFrom(b.orders, i + 1, l);
    var amt := if take == left then amtLeft else share(amtDelta, take, delta);
    RoomUntouched(b.orders, Booked(b, i, take, amt, false, now).orders, i + 1, l);
    hide RoomFrom;
  }

  lemma BookingElsewhere(b: Book, i: nat, qty: int, amt: int, now: real, j: nat)
    requires i < |b.orders| && j < |b.orders| && i != j
    ensures Booked(b, i, qty, amt, false, now).orders[j] == b.orders[j]
  {}

  lemma {:induction false} RoomPositive(os: seq<Order>, i: nat, l: Line, j: nat)
    requires i <= j < |os|
    ensures RoomFrom(os, i, l) >= Room(os[j], l)
    decreases j - i
  {
    if i < j {
      RoomPositive(os, i + 1, l, j);
    }
  }

  function NoShare(): (int, int, int) -> int { (amount: int, part: int, whole: int) => 0 }

  lemma RunOfTwo(b: Book, e: Event, f: Event)
    ensures Run(b, [e, f]) == Step(Step(b, e), f)
    ensures Run(b, [e]) == Step(b, e)
  {
    assert [e, f][..1] == [e] && [e][..0] == [];
    assert Run(b, []) == b;
  }

  /** A report that shows no orders beyond the ledger's and `room` more filled. */
  function ReportOf(c: Book, l: Line, room: int): Totals
    requires l in c.totals
  {
    Totals(c.totals[l].ordQty + Sum(c.orders, LiveQty(l)), c.totals[l].fillQty + Sum(c.orders, LiveFilled(l)) + room,
           c.totals[l].fillAmt + Sum(c.orders, LiveAmt(l)))
  }

  lemma ReportApplies(c: Book, l: Line, room: nat, now: real)
    requires Ok(c) && l in c.totals
    ensures var r := Resolved(c, l, NotSent, now);
            room == RoomFrom(r.orders, 0, l) || room == 0 ==>
              ApplyTotals(c, l, ReportOf(c, l, room), now, NoShare()).0 ==
              if room == 0 then r else Distributed(r, 0, l, room, 0, room, 0, NoShare(), now)
  {
    hide Ok, Sum, RoomFrom, Distributed, RecentNotices, LiveQty, LiveFilled, LiveAmt, UnknownQty, SameClients, ResolveOne;
    ResolveKeeps(c, l, NotSent, now);
    var r, t := Resolved(c, l, NotSent, now), ReportOf(c, l, room);
    assert ApplyTotals(c, l, t, now, NoShare()) == ApplyFills(r, l, t, now, NoShare(), []) by { hide ApplyFills; }
    assert t.fillQty - r.totals[l].fillQty - Sum(r.orders, LiveFilled(l)) == room;
    assert t.fillAmt - r.totals[l].fillAmt - Sum(r.orders, LiveAmt(l)) == 0;
  }

  lemma ReportChanges(c: Book, l: Line, i: nat) returns (f: Event)
    requires Ok(c) && l in c.totals && i < |c.orders| && On(c.orders[i], l)
    requires c.orders[i].state == Unknown || IsFillable(c.orders[i].state)
    ensures f.BrokerTotals? && i < |Step(c, f).orders| && Step(c, f).orders[i] != c.orders[i]
  {
    var o := c.orders[i];
    var now := o.created + UNKNOWN_GRACE + 1.0;
    var r := Resolved(c, l, NotSent, now);
    assert r.orders[i] == ResolveOne(o, l, NotSent, now);
    if o.state == Unknown {
      hide Ok, Sum, ApplyTotals, ReportOf, SameClients, Distributed, Resolved, RoomFrom;
      ReportApplies(c, l, 0, now);
      f := BrokerTotals(l, ReportOf(c, l, 0), now, NoShare());
    } else {
      assert OrderOk(o);
      assert Room(r.orders[i], l) > 0;
      hide Ok, Sum, ApplyTotals, ReportOf, SameClients, Distributed, Resolved, ResolveOne, Room;
      f := FillsChange(c, r, l, i, now);
    }
  }

  lemma FillsChange(c: Book, r: Book, l: Line, i: nat, now: real) returns (f: Event)
    requires Ok(c) && l in c.totals && r == Resolved(c, l, NotSent, now) && i < |r.orders| && Room(r.orders[i], l) > 0
    ensures f.BrokerTotals? && i < |Step(c, f).orders| && Step(c, f).orders[i].state == Filled
  {
    hide Ok, Sum, ApplyTotals, ReportOf, SameClients, Distributed, Resolved, RoomFrom, Room;
    var room := RoomFrom(r.orders, 0, l);
    RoomPositive(r.orders, 0, l, i);
    ReportApplies(c, l, room, now);
    DistributionFillsAll(r, 0, l, 0, room, 0, NoShare(), now, i);
    f := BrokerTotals(l, ReportOf(c, l, room), now, NoShare());
  }

  /** An order that is not final can still change: a send result, or a report of the broker, changes it. */
  lemma NotFinalCanChange(b: Book, i: nat) returns (es: seq<Event>)
    requires Ok(b) && i < |b.orders| && !IsFinal(b.orders[i].state)
    ensures i < |Run(b, es).orders| && Run(b, es).orders[i] != b.orders[i]
  {
    hide LogExplains, DistinctClients;
    var o := b.orders[i];
    if o.state == PendingSubmit {
      es := [SubmitResult(i, Rejected, None)];
      RunOfTwo(b, es[0], es[0]);
    } else {
      var l := Line(o.date, o.symbol, o.side);
      var e := TotalsBaseline(l, Totals(0, 0, 0));
      var c := Step(b, e);
      assert c.orders == b.orders && l in c.totals;
      OtherTables(b, c);
      hide Ok, Step;
      var f := ReportChanges(c, l, i);
      es := [e, f];
      RunOfTwo(b, e, f);
      StepKeepsClient(c, f, i);
    }
  }

  /** After a day is closed, an order of that day is the same in every future, fills included, exactly when it
      was among the day's newest hundred thousand or had already reached a final state. */
  lemma ClosedDayIsFrozen(b: Book, date: Date, now: real, i: nat)
    requires Ok(b) && date !in b.closed && !AnyUnresolved(b.orders, date) && i < |b.orders| && b.orders[i].date == date
    ensures var c := CloseDay(b, date, 0, now).0;
            && Ok(c)
            && ((forall es :: i < |Run(c, es).orders| && Run(c, es).orders[i] == c.orders[i]) <==>
                InScope(b.orders, i, date) || IsFinal(b.orders[i].state))
  {
    CloseKeeps(b, date, 0, now);
    CloseMakesFinal(b, date, now, i);
    hide Ok, InScope, Run;
    var c := CloseDay(b, date, 0, now).0;
    if IsFinal(c.orders[i].state) {
      forall es
        ensures i < |Run(c, es).orders| && Run(c, es).orders[i] == c.orders[i]
      {
        FinalStaysForever(c, es, i);
      }
    } else {
      var es := NotFinalCanChange(c, i);
    }
  }

  /** In a day of at most a hundred thousand orders closing looks at every one. */
  lemma {:induction false} ScopeIsTheWholeDay(os: seq<Order>, date: Date, i: nat)
    requires DayCount(os, 0, date) <= CLOSE_LIMIT && i < |os| && os[i].date == date
    ensures InScope(os, i, date)
  {
    DayCountFalls(os, 0, i, date);
  }

  lemma {:induction false} DayCountFalls(os: seq<Order>, i: nat, j: nat, date: Date)
    requires i <= j <= |os|
    ensures DayCount(os, j, date) <= DayCount(os, i, date)
    decreases j - i
  {
    if i == j {
    } else {
      DayCountFalls(os, i + 1, j, date);
    }
  }

  /** Whatever happens after a day was closed, closing it again returns the stored result and changes nothing. */
  lemma {:induction false} ClosingAgainReturnsTheResult(b: Book, es: seq<Event>, date: Date, openBreaks: int, now: real)
    requires date in b.closed
    ensures var c := Run(b, es);
            CloseDay(c, date, openBreaks, now) == (c, Closed(b.closed[date]))
    decreases |es|
  {
    hide Step;
    if es == [] {
    } else {
      ClosingAgainReturnsTheResult(b, es[..|es| - 1], date, openBreaks, now);
      ClosedStays(Run(b, es[..|es| - 1]), es[|es| - 1], date);
    }
  }

  lemma ClosedStays(b: Book, e: Event, date: Date)
    requires date in b.closed
    ensures date in Step(b, e).closed && Step(b, e).closed[date] == b.closed[date]
  {
    match e
    case BrokerTotals(l, t, now, share) => hide Sum, ApplyFills;
    case FillNotice(d, number, qty, price, key, now) => hide StripZeros;
    case Close(d, n, now) => hide DaySummary, InScope;
    case _ =>
  }

  lemma {:induction false} ScopeSumAdds(os: seq<Order>, i: nat, date: Date, f: Order -> int, g: Order -> int, h: Order -> int)
    requires i <= |os| && forall j :: 0 <= j < |os| && os[j].date == date ==> f(os[j]) + g(os[j]) == h(os[j])
    ensures ScopeSum(os, i, date, f) + ScopeSum(os, i, date, g) == ScopeSum(os, i, date, h)
    decreases |os| - i
  {
    if i == |os| {
    } else {
      ScopeSumAdds(os, i + 1, date, f, g, h);
    }
  }

  /** The closing report balances: what was filled and what expired are together all that was sent. */
  lemma ClosingReportBalances(b: Book, date: Date, now: real)
    requires Ok(b) && date !in b.closed
    ensures var s := DaySummary(b.orders, date, now);
            s.filledQty + s.expiredQty == ScopeSum(b.orders, 0, date, QtyIf(IsLive))
  {
    forall j | 0 <= j < |b.orders| && b.orders[j].date == date
      ensures FilledIf(IsLive)(b.orders[j]) + OpenIf(IsFillable)(b.orders[j]) == QtyIf(IsLive)(b.orders[j])
    {
      LiveSplits(b, j);
    }
    ScopeSumAdds(b.orders, 0, date, FilledIf(IsLive), OpenIf(IsFillable), QtyIf(IsLive));
  }

  lemma LiveSplits(b: Book, j: nat)
    requires Ok(b) && j < |b.orders| && b.orders[j].date !in b.closed
    ensures FilledIf(IsLive)(b.orders[j]) + OpenIf(IsFillable)(b.orders[j]) == QtyIf(IsLive)(b.orders[j])
  {
    var o := b.orders[j];
    assert OrderOk(o) && o.state != Expired;
    assert FilledIf(IsLive)(o) == if IsLive(o.state) then o.filledQty else 0;
    assert OpenIf(IsFillable)(o) == if IsFillable(o.state) then o.qty - o.filledQty else 0;
    assert QtyIf(IsLive)(o) == if IsLive(o.state) then o.qty else 0;
  }

  // ---- Holdings ----

  function SignOf(o: Order, date: Date, symbol: string): int {
    if o.date != date || o.symbol != symbol then 0 else if o.side == Buy then 1 else -1
  }

  /** The net change of a holding according to the fills log. */
  function NetFills(os: seq<Order>, fs: seq<Fill>, date: Date, symbol: string): int
    requires forall f :: f in fs ==> f.order < |os|
  {
    if fs == [] then 0
    else
      var f := fs[|fs| - 1];
      NetFills(os, fs[..|fs| - 1], date, symbol) + SignOf(os[f.order], date, symbol) * f.qty
  }

  lemma {:induction false} NetFillsSame(os: seq<Order>, ps: seq<Order>, fs: seq<Fill>, date: Date, symbol: string)
    requires |os| == |ps| && forall f :: f in fs ==> f.order < |os|
    requires forall i :: 0 <= i < |os| ==> SignOf(os[i], date, symbol) == SignOf(ps[i], date, symbol)
    ensures NetFills(os, fs, date, symbol) == NetFills(ps, fs, date, symbol)
    decreases |fs|
  {
    if fs == [] {
    } else {
      NetFillsSame(os, ps, fs[..|fs| - 1], date, symbol);
    }
  }

  lemma {:induction false} OrdersNetTheLog(os: seq<Order>, fs: seq<Fill>, date: Date, symbol: string)
    requires forall f :: f in fs ==> f.order < |os|
    requires forall i :: 0 <= i < |os| ==> FillQty(fs, i) == os[i].filledQty
    ensures Sum(os, Signed(date, symbol)) == NetFills(os, fs, date, symbol)
    decreases |fs|
  {
    if fs == [] {
      AllZero(os, Signed(date, symbol));
    } else {
      var f, front := fs[|fs| - 1], fs[..|fs| - 1];
      var o := os[f.order];
      var p := o.(filledQty := o.filledQty - f.qty);
      var ps := os[f.order := p];
      SumUpdate(os, f.order, p, Signed(date, symbol));
      OrdersNetTheLog(ps, front, date, symbol);
      NetFillsSame(os, ps, front, date, symbol);
      assert Signed(date, symbol)(o) - Signed(date, symbol)(p) == SignOf(o, date, symbol) * f.qty;
    }
  }

  lemma {:induction false} AllZero(os: seq<Order>, f: Order -> int)
    requires forall i :: 0 <= i < |os| ==> f(os[i]) == 0
    ensures Sum(os, f) == 0
    decreases |os|
  {
    if os == [] {
    } else {
      AllZero(os[..|os| - 1], f);
    }
  }

  /** After any sequence of operations the expected holding is the day's baseline plus the signed fills log. */
  lemma HoldingsFollowTheLog(es: seq<Event>, date: Date, symbol: string)
    ensures var b := Run(EMPTY, es);
            && (forall f :: f in b.fills ==> f.order < |b.orders|)
            && ExpectedHolding(b, date, symbol) == Baseline(b, date, symbol) + NetFills(b.orders, b.fills, date, symbol)
  {
    hide Run;
    RunKeeps(es);
    var b := Run(EMPTY, es);
    OrdersNetTheLog(b.orders, b.fills, date, symbol);
  }

  /** The same client id twice is the same order: the second call changes nothing and returns the first order,
      whatever happened in between. */
  lemma ClientIdIsIdempotent(b: Book, d: Draft, d': Draft, now: real, now': real, es: seq<Event>)
    requires Ok(b) && NewOrder(b, d, now).Ok? && d'.clientId == d.clientId
    ensures var r := NewOrder(b, d, now).value;
            var c := Run(r.0, es);
            NewOrder(c, d', now') == Result<(Book, nat, bool), LedgerError>.Ok((c, r.1, false))
  {
    hide Run;
    var r := NewOrder(b, d, now).value;
    assert r.0 == Step(b, Place(d, now));
    PlaceKeeps(b, d, now);
    RunKeepsClients(r.0, es, r.1);
    var c := Run(r.0, es);
    var found := FindClient(c.orders, d.clientId);
    assert found.value == r.1 by {
      hide LogExplains, OrderOk;
      assert c.orders[r.1].clientId == d.clientId;
    }
  }

  lemma {:induction false} RunKeepsClients(b: Book, es: seq<Event>, i: nat)
    requires Ok(b) && i < |b.orders|
    ensures var c := Run(b, es); Ok(c) && i < |c.orders| && c.orders[i].clientId == b.orders[i].clientId
    decreases |es|
  {
    hide Ok, Step;
    if es == [] {
    } else {
      RunKeepsClients(b, es[..|es| - 1], i);
      var c := Run(b, es[..|es| - 1]);
      StepKeeps(c, es[|es| - 1]);
      StepKeepsClient(c, es[|es| - 1], i);
    }
  }

  lemma StepKeepsClient(b: Book, e: Event, i: nat)
    requires i < |b.orders|
    ensures i < |Step(b, e).orders| && Step(b, e).orders[i].clientId == b.orders[i].clientId
  {
    match e
    case BrokerTotals(l, t, now, share) => hide Sum, ApplyFills;
    case FillNotice(d, number, qty, price, key, now) => hide StripZeros;
    case Close(d, n, now) => hide DaySummary, InScope;
    case _ =>
  }
}
