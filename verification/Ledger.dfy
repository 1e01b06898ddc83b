/** The order ledger as the object that updates the tables in place. */
module Ledger {
  import opened Wrappers
  import opened OrderBook

  class Ledger {
    var orders: seq<Order>
    var fills: seq<Fill>
    var totals: map<Line, Totals>
    var holdings: map<(Date, string), int>
    var holdingsTaken: set<Date>
    var notices: seq<Notice>
    var dayClose: map<Date, Summary>

    function State(): Book
      reads this
    {
      Book(orders, fills, totals, holdings, holdingsTaken, notices, dayClose)
    }

    constructor ()
      ensures State() == EMPTY
    {
      orders, fills, totals, holdings, holdingsTaken, notices, dayClose := [], [], map[], map[], {}, [], map[];
    }

    method NewOrder(d: Draft, now: real) returns (r: Result<(nat, bool), LedgerError>)
      modifies this`orders
      ensures match OrderBook.NewOrder(old(State()), d, now)
              case Ok(t) => State() == t.0 && r == Ok((t.1, t.2))
              case Err(e) => State() == old(State()) && r == Err(e)
    {
      var found := FindClient(orders, d.clientId);
      if found.Some? {
        return Ok((found.value, false));
      }
      if d.qty <= 0 {
        return Err(BadQuantity);
      }
      if d.price < 0 {
        return Err(BadPrice);
      }
      var est := if d.estPrice != 0 then d.estPrice else d.price;
      orders := orders + [Order(d.clientId, d.date, d.symbol, d.side, d.qty, d.price, est, PendingSubmit, None, 0, 0, now)];
      r := Ok((|orders| - 1, true));
    }

    method Mark(i: nat, state: OrderState, brokerNo: Option<string>)
      requires i < |orders|
      modifies this`orders
      ensures State() == Marked(old(State()), i, state, brokerNo)
    {
      var o := orders[i];
      orders := orders[i := o.(state := state, brokerNo := if brokerNo.Some? then brokerNo else o.brokerNo)];
    }

    /** At start-up: an order that may or may not have been sent is of unknown fate; it is not sent again. */
    method RecoverPending() returns (count: nat)
      modifies this`orders
      ensures State() == Recovered(old(State()))
      ensures count == Sum(old(orders), CountOf(IsPending))
    {
      count := 0;
      for i := 0 to |orders|
        invariant |orders| == |old(orders)|
        invariant forall j :: 0 <= j < i ==> orders[j] == RecoverOne(old(orders)[j])
        invariant forall j :: i <= j < |orders| ==> orders[j] == old(orders)[j]
        invariant count == Sum(old(orders)[..i], CountOf(IsPending))
      {
        assert old(orders)[..i + 1][..i] == old(orders)[..i];
        var o := old(orders)[i];
        assert CountOf(IsPending)(o) == if IsPending(o.state) then 1 else 0;
        if orders[i].state == PendingSubmit {
          SetState(i, Unknown);
          count := count + 1;
        }
      }
      assert old(orders)[..|orders|] == old(orders);
    }

    method SetState(i: nat, state: OrderState)
      requires i < |orders|
      modifies this`orders
      ensures orders == old(orders)[i := old(orders)[i].(state := state)]
    {
      orders := orders[i := orders[i].(state := state)];
    }

    method SetTotalsBaseline(l: Line, t: Totals)
      modifies this`totals
      ensures State() == Step(old(State()), TotalsBaseline(l, t))
    {
      if l !in totals {
        totals := totals[l := t];
      }
    }

    method SetHoldingsBaseline(date: Date, h: map<string, int>)
      modifies this`holdings, this`holdingsTaken
      ensures State() == WithHoldings(old(State()), date, h)
    {
      if date in holdingsTaken {
        return;
      }
      StoreHoldings(date, h);
      holdingsTaken := holdingsTaken + {date};
    }

    method StoreHoldings(date: Date, h: map<string, int>)
      modifies this`holdings
      ensures holdings == old(holdings) + map s | s in h :: (date, s) := h[s]
    {
      var before := holdings;
      var symbols := h.Keys;
      while symbols != {}
        invariant symbols <= h.Keys
        invariant forall k :: k in holdings <==> k in before || (k.0 == date && k.1 in h && k.1 !in symbols)
        invariant forall k :: k in holdings ==> holdings[k] == if k.0 == date && k.1 in h && k.1 !in symbols then h[k.1] else before[k]
        decreases symbols
      {
        var s :| s in symbols;
        holdings := holdings[(date, s) := h[s]];
        symbols := symbols - {s};
      }
      SameMap(holdings, before + map s | s in h :: (date, s) := h[s]);
    }

    /** The sum of one column over the orders that a query selects. */
    method Total(f: Order -> int) returns (sum: int)
      ensures sum == Sum(orders, f)
    {
      sum := 0;
      for i := 0 to |orders|
        invariant sum == Sum(orders[..i], f)
      {
        assert orders[..i + 1][..i] == orders[..i];
        sum := sum + f(orders[i]);
      }
      assert orders[..|orders|] == orders;
    }

    /** Orders of the line whose fate was unknown were sent, or by now were not. */
    method Resolve(l: Line, to: OrderState, now: real)
      modifies this`orders
      ensures State() == Resolved(old(State()), l, to, now)
    {
      for i := 0 to |orders|
        invariant |orders| == |old(orders)|
        invariant forall j :: 0 <= j < i ==> orders[j] == ResolveOne(old(orders)[j], l, to, now)
        invariant forall j :: i <= j < |orders| ==> orders[j] == old(orders)[j]
      {
        if On(orders[i], l) && orders[i].state == Unknown && (to == Accepted || now - orders[i].created > UNKNOWN_GRACE) {
          SetState(i, to);
        }
      }
    }

    method ApplyTotals(l: Line, broker: Totals, now: real, share: (int, int, int) -> int) returns (breaks: seq<Break>)
      modifies this`orders, this`fills
      ensures (State(), breaks) == OrderBook.ApplyTotals(old(State()), l, broker, now, share)
    {
      hide Sum, LiveQty, UnknownQty, OrderBook.ApplyFills, ResolveOne;
      if l !in totals {
        return [NoBaseline];
      }
      var live := Total(LiveQty(l));
      var extra := broker.ordQty - totals[l].ordQty - live;
      breaks := [];
      if extra > 0 {
        var unknown := Total(UnknownQty(l));
        if unknown != extra {
          return [UnexplainedBrokerOrders(extra)];
        }
        Resolve(l, Accepted, now);
      } else {
        if extra < 0 {
          breaks := [OrdersMissingAtBroker(-extra)];
        }
        Resolve(l, NotSent, now);
      }
      breaks := ApplyFills(l, broker, now, share, breaks);
    }

    method ApplyFills(l: Line, broker: Totals, now: real, share: (int, int, int) -> int, found: seq<Break>) returns (breaks: seq<Break>)
      requires l in totals
      modifies this`orders, this`fills
      ensures (State(), breaks) == OrderBook.ApplyFills(old(State()), l, broker, now, share, found)
    {
      hide Sum, LiveFilled, LiveAmt, RoomFrom, Distributed, RecentNotices;
      var filled := Total(LiveFilled(l));
      var amount := Total(LiveAmt(l));
      var delta := broker.fillQty - totals[l].fillQty - filled;
      var amtDelta := broker.fillAmt - totals[l].fillAmt - amount;
      breaks := found;
      if delta < 0 {
        var recent := Recent(l, now);
        if -delta > recent {
          breaks := breaks + [FillsBelowLedger(delta)];
        }
        return;
      }
      if delta == 0 {
        return;
      }
      var room := TotalRoom(l);
      if delta > room {
        return breaks + [FillsExceedOrders(delta, room)];
      }
      Distribute(l, delta, amtDelta, share, now);
    }

    method Recent(l: Line, now: real) returns (sum: int)
      ensures sum == RecentNotices(orders, notices, l, now)
    {
      sum := 0;
      for i := 0 to |notices|
        invariant sum == RecentNotices(orders, notices[..i], l, now)
      {
        assert notices[..i + 1][..i] == notices[..i];
        var n := notices[i];
        if n.ts > now - NOTICE_GRACE && n.order < |orders| && On(orders[n.order], l) && IsLive(orders[n.order].state) {
          sum := sum + n.qty;
        }
      }
      assert notices[..|notices|] == notices;
    }

    method TotalRoom(l: Line) returns (room: nat)
      ensures room == RoomFrom(orders, 0, l)
    {
      room := 0;
      for i := 0 to |orders|
        invariant room + RoomFrom(orders, i, l) == RoomFrom(orders, 0, l)
      {
        room := room + Room(orders[i], l);
      }
    }

    method Distribute(l: Line, delta: int, amtDelta: int, share: (int, int, int) -> int, now: real)
      modifies this`orders, this`fills
      ensures State() == Distributed(old(State()), 0, l, delta, amtDelta, delta, amtDelta, share, now)
    {
      hide Booked, SameClients;
      ghost var goal := Distributed(State(), 0, l, delta, amtDelta, delta, amtDelta, share, now);
      var left, amtLeft, i := delta, amtDelta, 0;
      while i < |orders| && left != 0
        invariant i <= |orders|
        invariant Distributed(State(), i, l, left, amtLeft, delta, amtDelta, share, now) == goal
        decreases |orders| - i
      {
        var room := Room(orders[i], l);
        if room > 0 {
          var take := if room < left then room else left;
          var amt := if take == left then amtLeft else share(amtDelta, take, delta);
          left, amtLeft := left - take, amtLeft - amt;
          Record(i, take, amt, false, now);
        }
        i := i + 1;
      }
    }

    method Record(i: nat, qty: int, amt: int, fromNotice: bool, ts: real)
      requires i < |orders|
      modifies this`orders, this`fills
      ensures State() == Booked(old(State()), i, qty, amt, fromNotice, ts) && |orders| == |old(orders)|
    {
      var o := orders[i];
      var filled := o.filledQty + qty;
      fills := fills + [Fill(i, qty, amt, fromNotice, ts)];
      orders := orders[i := o.(filledQty := filled, filledAmt := o.filledAmt + amt, state := if filled == o.qty then Filled else Partial)];
    }

    method ApplyNotice(date: Date, number: string, qty: int, price: int, key: string, now: real) returns (r: NoticeResult)
      modifies this`orders, this`fills, this`notices
      ensures (State(), r) == OrderBook.ApplyNotice(old(State()), date, number, qty, price, key, now)
    {
      hide StripZeros, Answers;
      if exists n :: n in notices && n.key == key {
        return Duplicate;
      }
      var found := FindBrokerNo(orders, date, number);
      if found == None {
        return Unmatched;
      }
      var o := orders[found.value];
      if !IsFillable(o.state) || qty <= 0 || qty > o.qty - o.filledQty {
        return Ignored;
      }
      notices := notices + [Notice(key, found.value, qty, qty * price, now)];
      Record(found.value, qty, qty * price, true, now);
      r := Applied;
    }

    /** What each holding should be; a symbol with nothing held has no entry. */
    method ExpectedHoldings(date: Date) returns (pos: map<string, int>)
      ensures forall s :: (s in pos <==> ExpectedHolding(State(), date, s) != 0)
      ensures forall s :: s in pos ==> pos[s] == ExpectedHolding(State(), date, s)
    {
      var all := map k | k in holdings && k.0 == date :: k.1 := holdings[k];
      for i := 0 to |orders|
        invariant forall s :: (if s in all then all[s] else 0) == Baseline(State(), date, s) + Sum(orders[..i], Signed(date, s))
      {
        assert orders[..i + 1][..i] == orders[..i];
        var o := orders[i];
        if o.date == date {
          var had := if o.symbol in all then all[o.symbol] else 0;
          all := all[o.symbol := had + if o.side == Buy then o.filledQty else -o.filledQty];
        }
      }
      assert orders[..|orders|] == orders;
      pos := map s | s in all && all[s] != 0 :: all[s];
    }

    method CloseDay(date: Date, openBreaks: int, now: real) returns (r: CloseResult)
      modifies this`orders, this`dayClose
      ensures (State(), r) == OrderBook.CloseDay(old(State()), date, openBreaks, now)
    {
      hide DaySummary, DayCount, UnresolvedIds;
      if date in dayClose {
        return Closed(dayClose[date]);
      }
      var unresolved := UnresolvedOrders(date);
      if unresolved != [] {
        return HasUnresolved(unresolved);
      }
      if openBreaks != 0 {
        return HasBreaks(openBreaks);
      }
      var summary := Summarise(date, now);
      Expire(date);
      assert orders == OrderBook.CloseDay(old(State()), date, openBreaks, now).0.orders;
      dayClose := dayClose[date := summary];
      r := Closed(summary);
    }

    method UnresolvedOrders(date: Date) returns (ids: seq<nat>)
      ensures ids == UnresolvedIds(orders, 0, date) && (ids != [] <==> AnyUnresolved(orders, date))
    {
      ids := [];
      var seen, i := 0, |orders|;
      while i > 0
        invariant 0 <= i <= |orders| && seen == DayCount(orders, i, date)
        invariant ids == UnresolvedIds(orders, i, date)
      {
        i := i - 1;
        if orders[i].date == date {
          if seen < CLOSE_LIMIT && Unresolved(orders[i].state) {
            ids := ids + [i];
          }
          seen := seen + 1;
        }
      }
      assert ids != [] ==> ids[0] in ids;
    }

    /** The column sums over the newest rows of the day. */
    method ScopeTotal(date: Date, f: Order -> int) returns (sum: int)
      ensures sum == ScopeSum(orders, 0, date, f)
    {
      sum := 0;
      var seen, i := 0, |orders|;
      while i > 0
        invariant 0 <= i <= |orders| && seen == DayCount(orders, i, date)
        invariant sum == ScopeSum(orders, i, date, f)
      {
        i := i - 1;
        if orders[i].date == date {
          if seen < CLOSE_LIMIT {
            sum := sum + f(orders[i]);
          }
          seen := seen + 1;
        }
      }
    }

    method Summarise(date: Date, now: real) returns (s: Summary)
      ensures s == DaySummary(orders, date, now)
    {
      hide ScopeSum;
      var sent := ScopeTotal(date, CountOf(IsLive));
      var rejected := ScopeTotal(date, CountOf(IsRejected));
      var notSent := ScopeTotal(date, CountOf(IsNotSent));
      var filledQty := ScopeTotal(date, FilledIf(IsLive));
      var filledAmt := ScopeTotal(date, AmtIf(IsLive));
      var expired := ScopeTotal(date, CountOf(IsFillable));
      var expiredQty := ScopeTotal(date, OpenIf(IsFillable));
      s := Summary(now, sent, rejected, notSent, filledQty, filledAmt, expired, expiredQty);
    }

    method Expire(date: Date)
      modifies this`orders
      ensures |orders| == |old(orders)| && forall i :: 0 <= i < |orders| ==> orders[i] == ClosedOrder(old(orders), i, date)
    {
      var before := orders;
      var seen, i := 0, |orders|;
      while i > 0
        invariant 0 <= i <= |orders| == |before| && seen == DayCount(before, i, date)
        invariant forall j :: i <= j < |orders| ==> orders[j] == ClosedOrder(before, j, date)
        invariant forall j :: 0 <= j < i ==> orders[j] == before[j]
      {
        i := i - 1;
        if orders[i].date == date {
          if seen < CLOSE_LIMIT && IsFillable(orders[i].state) {
            SetState(i, Expired);
          }
          seen := seen + 1;
        }
      }
    }
  }

  lemma SameMap(a: map<(Date, string), int>, b: map<(Date, string), int>)
    requires forall k :: k in a <==> k in b
    requires forall k :: k in a ==> a[k] == b[k]
    ensures a == b
  {}
}
