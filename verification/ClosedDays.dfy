/** A closed day as a whole: its fills stay what they are until an order is placed on it again. */
module ClosedDays {
  import Wrappers
  import opened OrderBook
  import opened LedgerProofs

  predicate OfDay(os: seq<Order>, f: Fill, date: Date) { f.order < |os| && os[f.order].date == date }

  /** The fills log of one day. */
  function DayFills(os: seq<Order>, fs: seq<Fill>, date: Date): seq<Fill> {
    if fs == [] then []
    else
      var f := fs[|fs| - 1];
      DayFills(os, fs[..|fs| - 1], date) + if OfDay(os, f, date) then [f] else []
  }

  function FillsOf(b: Book, date: Date): seq<Fill> { DayFills(b.orders, b.fills, date) }

  /** Every order of the day has reached a final state. */
  ghost predicate Settled(b: Book, date: Date) {
    forall i :: 0 <= i < |b.orders| && b.orders[i].date == date ==> IsFinal(b.orders[i].state)
  }

  predicate PlacesOn(e: Event, date: Date) { e.Place? && e.draft.date == date }

  ghost predicate LeavesAlone(es: seq<Event>, date: Date) {
    forall e :: e in es ==> !PlacesOn(e, date)
  }

  ghost predicate DatesKept(os: seq<Order>, ps: seq<Order>) {
    |os| <= |ps| && forall i :: 0 <= i < |os| ==> ps[i].date == os[i].date
  }

  /** The log grew by fills of orders that were not final. */
  ghost predicate BooksOpen(os: seq<Order>, fs: seq<Fill>, gs: seq<Fill>) {
    fs <= gs && forall f :: f in gs[|fs|..] ==> f.order < |os| && !IsFinal(os[f.order].state)
  }

  // ---- One operation ----

  /** From `b` to `c` only open orders from the `i`-th on were booked. */
  ghost predicate BooksFrom(b: Book, c: Book, i: nat) {
    && DatesKept(b.orders, c.orders) && |c.orders| == |b.orders| && b.fills <= c.fills
    && forall f :: f in c.fills[|b.fills|..] ==> i <= f.order < |b.orders| && IsFillable(b.orders[f.order].state)
  }

  lemma BookingFirst(b: Book, c: Book, i: nat, qty: int, amt: int, now: real)
    requires i < |b.orders| && IsFillable(b.orders[i].state) && BooksFrom(Booked(b, i, qty, amt, false, now), c, i + 1)
    ensures BooksFrom(b, c, i)
  {
    var d := Booked(b, i, qty, amt, false, now);
    assert c.fills[|b.fills|..] == [d.fills[|b.fills|]] + c.fills[|d.fills|..];
  }

  lemma NothingBooked(b: Book, i: nat)
    ensures BooksFrom(b, b, i)
  {}

  lemma {:induction false} DistributionBooksOpen(b: Book, i: nat, l: Line, left: int, amtLeft: int, delta: int, amtDelta: int, share: (int, int, int) -> int, now: real)
    requires i <= |b.orders|
    ensures BooksFrom(b, Distributed(b, i, l, left, amtLeft, delta, amtDelta, share, now), i)
    decreases |b.orders| - i
  {
    hide SameClients;
    if i == |b.orders| || left == 0 {
      NothingBooked(b, i);
    } else if Room(b.orders[i], l) == 0 {
      DistributionBooksOpen(b, i + 1, l, left, amtLeft, delta, amtDelta, share, now);
    } else {
      var take := if Room(b.orders[i], l) < left then Room(b.orders[i], l) else left;
      var amt := if take == left then amtLeft else share(amtDelta, take, delta);
      hide BooksFrom, Booked;
      DistributionBooksOpen(Booked(b, i, take, amt, false, now), i + 1, l, left - take, amtLeft - amt, delta, amtDelta, share, now);
      BookingFirst(b, Distributed(b, i, l, left, amtLeft, delta, amtDelta, share, now), i, take, amt, now);
    }
  }

  lemma FillsBookOpen(b: Book, l: Line, broker: Totals, now: real, share: (int, int, int) -> int, breaks: seq<Break>)
    requires l in b.totals
    ensures var c := ApplyFills(b, l, broker, now, share, breaks).0;
            DatesKept(b.orders, c.orders) && |c.orders| == |b.orders| && BooksOpen(b.orders, b.fills, c.fills)
  {
    hide Sum, RecentNotices, RoomFrom, Distributed;
    var delta := Increase(b, l, broker);
    var amtDelta := broker.fillAmt - b.totals[l].fillAmt - Sum(b.orders, LiveAmt(l));
    DistributionBooksOpen(b, 0, l, delta, amtDelta, delta, amtDelta, share, now);
  }

  lemma TotalsBookOpen(b: Book, l: Line, t: Totals, now: real, share: (int, int, int) -> int)
    ensures var c := ApplyTotals(b, l, t, now, share).0;
            DatesKept(b.orders, c.orders) && |c.orders| == |b.orders| && BooksOpen(b.orders, b.fills, c.fills)
  {
    hide ApplyFills, Sum;
    if l in b.totals {
      var extra := t.ordQty - b.totals[l].ordQty - Sum(b.orders, LiveQty(l));
      FillsBookOpen(Resolved(b, l, Accepted, now), l, t, now, share, []);
      FillsBookOpen(Resolved(b, l, NotSent, now), l, t, now, share, if extra < 0 then [OrdersMissingAtBroker(-extra)] else []);
    }
  }

  lemma NoticeBooksOpen(b: Book, date: Date, number: string, qty: int, price: int, key: string, now: real)
    ensures var c := ApplyNotice(b, date, number, qty, price, key, now).0;
            DatesKept(b.orders, c.orders) && |c.orders| == |b.orders| && BooksOpen(b.orders, b.fills, c.fills)
  {
    NothingNew(b.fills);
    hide FindBrokerNo, Answers;
  }

  lemma ClosingBooksNothing(b: Book, date: Date, openBreaks: int, now: real)
    ensures var c := CloseDay(b, date, openBreaks, now).0;
            DatesKept(b.orders, c.orders) && |c.orders| == |b.orders| && c.fills == b.fills
  {
    hide InScope, DaySummary, AnyUnresolved;
  }

  lemma StepBooksOpen(b: Book, e: Event)
    ensures var c := Step(b, e);
            && DatesKept(b.orders, c.orders) && BooksOpen(b.orders, b.fills, c.fills)
            && (|c.orders| != |b.orders| ==> e.Place? && |c.orders| == |b.orders| + 1 && c.orders[|b.orders|].date == e.draft.date)
  {
    hide SameClients, ApplyTotals, ApplyNotice, CloseDay;
    NothingNew(b.fills);
    match e
    case BrokerTotals(l, t, now, share) => TotalsBookOpen(b, l, t, now, share);
    case FillNotice(d, number, qty, price, key, now) => NoticeBooksOpen(b, d, number, qty, price, key, now);
    case Close(d, n, now) => ClosingBooksNothing(b, d, n, now);
    case _ =>
  }

  lemma NothingNew(fs: seq<Fill>)
    ensures fs[|fs|..] == []
  {}

  lemma {:induction false} SameFills(os: seq<Order>, ps: seq<Order>, fs: seq<Fill>, date: Date)
    requires DatesKept(os, ps) && forall f :: f in fs ==> f.order < |os|
    ensures DayFills(ps, fs, date) == DayFills(os, fs, date)
    decreases |fs|
  {
    if fs == [] {
    } else {
      SameFills(os, ps, fs[..|fs| - 1], date);
    }
  }

  lemma {:induction false} OtherFills(os: seq<Order>, fs: seq<Fill>, gs: seq<Fill>, date: Date)
    requires fs <= gs && forall f :: f in gs[|fs|..] ==> !OfDay(os, f, date)
    ensures DayFills(os, gs, date) == DayFills(os, fs, date)
    decreases |gs|
  {
    if |gs| == |fs| {
      assert gs == fs;
    } else {
      var front := gs[..|gs| - 1];
      assert gs[|fs|..] == front[|fs|..] + [gs[|gs| - 1]];
      OtherFills(os, fs, front, date);
    }
  }

  lemma SettledStays(b: Book, e: Event, date: Date)
    requires Ok(b) && Settled(b, date) && !PlacesOn(e, date)
    ensures Settled(Step(b, e), date) && FillsOf(Step(b, e), date) == FillsOf(b, date)
  {
    hide Step, DayFills, OrderOk, DistinctClients;
    var c := Step(b, e);
    StepBooksOpen(b, e);
    forall i | 0 <= i < |c.orders| && c.orders[i].date == date
      ensures IsFinal(c.orders[i].state)
    {
      assert i < |b.orders|;
      FinalStays(b, e, i);
    }
    SameFills(b.orders, c.orders, b.fills, date);
    OtherFills(c.orders, b.fills, c.fills, date);
  }

  // ---- Every future ----

  lemma {:induction false} SettledStaysForever(b: Book, es: seq<Event>, date: Date)
    requires Ok(b) && Settled(b, date) && LeavesAlone(es, date)
    ensures var c := Run(b, es); Ok(c) && Settled(c, date) && FillsOf(c, date) == FillsOf(b, date)
    decreases |es|
  {
    hide Ok, Settled, FillsOf, Step;
    if es == [] {
    } else {
      var front := Run(b, es[..|es| - 1]);
      SettledStaysForever(b, es[..|es| - 1], date);
      StepKeeps(front, es[|es| - 1]);
      SettledStays(front, es[|es| - 1], date);
    }
  }

  /** A day of at most a hundred thousand orders, once closed, is settled. */
  lemma ClosingSettles(b: Book, date: Date, now: real)
    requires Ok(b) && date !in b.closed && !AnyUnresolved(b.orders, date) && DayCount(b.orders, 0, date) <= CLOSE_LIMIT
    ensures var c := CloseDay(b, date, 0, now).0; Ok(c) && Settled(c, date) && date in c.closed
  {
    CloseKeeps(b, date, 0, now);
    hide Ok, DaySummary, InScope, DayCount;
    var c := CloseDay(b, date, 0, now).0;
    forall i | 0 <= i < |c.orders| && c.orders[i].date == date
      ensures IsFinal(c.orders[i].state)
    {
      ScopeIsTheWholeDay(b.orders, date, i);
      CloseMakesFinal(b, date, now, i);
    }
  }

  /** The fills of a closed day are the same in every future in which no order is placed on it. */
  lemma ClosedDayKeepsItsFills(b: Book, date: Date, now: real, es: seq<Event>)
    requires Ok(b) && date !in b.closed && !AnyUnresolved(b.orders, date) && DayCount(b.orders, 0, date) <= CLOSE_LIMIT
    requires LeavesAlone(es, date)
    ensures var c := CloseDay(b, date, 0, now).0; date in c.closed && FillsOf(Run(c, es), date) == FillsOf(c, date)
  {
    hide Ok, CloseDay, FillsOf, Run, AnyUnresolved;
    ClosingSettles(b, date, now);
    SettledStaysForever(CloseDay(b, date, 0, now).0, es, date);
  }

  // ---- An order placed on a closed day ----

  /** A client id that no order has. */
  function FreshId(os: seq<Order>): (s: string)
    ensures forall i :: 0 <= i < |os| ==> |os[i].clientId| < |s|
  {
    if os == [] then "x"
    else
      var s, last := FreshId(os[..|os| - 1]), os[|os| - 1].clientId;
      if |last| < |s| then s else last + "x"
  }

  lemma {:induction false} FilledHasFill(fs: seq<Fill>, i: nat)
    requires FillQty(fs, i) > 0
    ensures exists f :: f in fs && f.order == i
    decreases |fs|
  {
    if fs == [] {
      assert false;
    } else if fs[|fs| - 1].order != i {
      FilledHasFill(fs[..|fs| - 1], i);
    }
  }

  lemma {:induction false} InDayFills(os: seq<Order>, fs: seq<Fill>, date: Date, f: Fill)
    ensures f in DayFills(os, fs, date) <==> f in fs && OfDay(os, f, date)
    decreases |fs|
  {
    if fs == [] {
    } else {
      InDayFills(os, fs[..|fs| - 1], date, f);
    }
  }

  /** The books after an order was placed on a line, accepted, and the line's totals were taken. */
  lemma PlacedAndAccepted(c: Book, l: Line) returns (es: seq<Event>)
    requires Ok(c)
    ensures var d := Run(c, es);
            && Ok(d) && l in d.totals && |d.orders| == |c.orders| + 1 && d.fills == c.fills
            && On(d.orders[|c.orders|], l) && d.orders[|c.orders|].state == Accepted
  {
    hide LogExplains, DistinctClients;
    var n, draft := |c.orders|, Draft(FreshId(c.orders), l.date, l.symbol, l.side, 1, 1, 0);
    var p, m, t := Place(draft, 0.0), SubmitResult(n, Accepted, Wrappers.None), TotalsBaseline(l, Totals(0, 0, 0));
    assert FindClient(c.orders, draft.clientId) == Wrappers.None;
    var d1 := Step(c, p);
    var d2 := Step(d1, m);
    StepKeeps(c, p);
    StepKeeps(d1, m);
    StepKeeps(d2, t);
    es := [p, m, t];
    assert es[..2] == [p, m];
    RunOfTwo(c, p, m);
    assert Run(c, es) == Step(d2, t);
  }

  lemma RunOneMore(b: Book, es: seq<Event>, e: Event)
    ensures Run(b, es + [e]) == Step(Run(b, es), e)
  {
    assert (es + [e])[..|es|] == es;
  }

  /** Only the ledger's caller keeps a closed day closed: a new order on it is accepted and filled. */
  lemma PlacedOrderChangesTheDay(c: Book, date: Date) returns (es: seq<Event>)
    requires Ok(c)
    ensures FillsOf(Run(c, es), date) != FillsOf(c, date)
  {
    hide Step, Run, DistinctClients, FillQty;
    var l, n := Line(date, "S", Buy), |c.orders|;
    var front := PlacedAndAccepted(c, l);
    var d := Run(c, front);
    var now := 0.0;
    var r := Resolved(d, l, NotSent, now);
    assert OrderOk(d.orders[n]);
    assert Room(r.orders[n], l) > 0;
    hide OrderOk, Room, Resolved;
    var f := FillsChange(d, r, l, n, now);
    es := front + [f];
    RunOneMore(c, front, f);
    StepKeeps(d, f);
    StepBooksOpen(d, f);
    NewFill(c, Step(d, f), date, n);
  }

  lemma NewFill(c: Book, t: Book, date: Date, n: nat)
    requires Ok(c) && Ok(t) && |c.orders| <= n < |t.orders| && t.orders[n].date == date && t.orders[n].state == Filled
    ensures FillsOf(t, date) != FillsOf(c, date)
  {
    hide DistinctClients, FillQty;
    assert OrderOk(t.orders[n]) && FillQty(t.fills, n) > 0;
    FilledHasFill(t.fills, n);
    var f :| f in t.fills && f.order == n;
    InDayFills(t.orders, t.fills, date, f);
    InDayFills(c.orders, c.fills, date, f);
  }
}
