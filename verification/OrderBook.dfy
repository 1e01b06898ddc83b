/** The order ledger: what each operation does to the tables, and what holds after any sequence of them. */
module OrderBook {
  import opened Wrappers

  type Date = string

  datatype Side = Buy | Sell

  datatype OrderState = PendingSubmit | Accepted | Partial | Filled | Rejected | Unknown | NotSent | Expired

  /** At the broker for certain. */
  predicate IsLive(s: OrderState) { s == Accepted || s == Partial || s == Filled || s == Expired }

  /** May still receive fills. */
  predicate IsFillable(s: OrderState) { s == Accepted || s == Partial }

  predicate IsRejected(s: OrderState) { s == Rejected }

  predicate IsNotSent(s: OrderState) { s == NotSent }

  predicate IsPending(s: OrderState) { s == PendingSubmit }

  predicate IsFinal(s: OrderState) { s == Filled || s == Rejected || s == NotSent || s == Expired }

  const UNKNOWN_GRACE: real := 30.0
  const NOTICE_GRACE: real := 60.0
  const CLOSE_LIMIT: nat := 100_000

  datatype Order = Order(
    clientId: string, date: Date, symbol: string, side: Side, qty: int, price: int, estPrice: int,
    state: OrderState, brokerNo: Option<string>, filledQty: int, filledAmt: int, created: real)

  datatype Fill = Fill(order: nat, qty: int, amt: int, fromNotice: bool, ts: real)

  datatype Notice = Notice(key: string, order: nat, qty: int, amt: int, ts: real)

  /** Day, symbol and side: what the broker reports totals for. */
  datatype Line = Line(date: Date, symbol: string, side: Side)

  datatype Totals = Totals(ordQty: int, fillQty: int, fillAmt: int)

  datatype Summary = Summary(
    ts: real, sent: int, rejected: int, notSent: int, filledQty: int, filledAmt: int, expiredOrders: int, expiredQty: int)

  datatype Book = Book(
    orders: seq<Order>, fills: seq<Fill>, totals: map<Line, Totals>, holdings: map<(Date, string), int>,
    holdingsTaken: set<Date>, notices: seq<Notice>, closed: map<Date, Summary>)

  const EMPTY := Book([], [], map[], map[], {}, [], map[])

  // ---- Sums over orders ----

  function Sum(os: seq<Order>, f: Order -> int): int {
    if os == [] then 0 else Sum(os[..|os| - 1], f) + f(os[|os| - 1])
  }

  lemma {:induction false} SumUpdate(os: seq<Order>, i: nat, o: Order, f: Order -> int)
    requires i < |os|
    ensures Sum(os[i := o], f) == Sum(os, f) - f(os[i]) + f(o)
    decreases |os|
  {
    var n := |os| - 1;
    if i < n {
      SumUpdate(os[..n], i, o, f);
      assert os[i := o][..n] == os[..n][i := o];
    } else {
      assert os[i := o][..n] == os[..n];
    }
  }

  lemma {:induction false} SumSame(os: seq<Order>, ps: seq<Order>, f: Order -> int)
    requires |os| == |ps| && forall i :: 0 <= i < |os| ==> f(os[i]) == f(ps[i])
    ensures Sum(os, f) == Sum(ps, f)
    decreases |os|
  {
    if os == [] {
    } else {
      SumSame(os[..|os| - 1], ps[..|ps| - 1], f);
    }
  }

  predicate On(o: Order, l: Line) { o.date == l.date && o.symbol == l.symbol && o.side == l.side }

  function LiveQty(l: Line): Order -> int { (o: Order) => if On(o, l) && IsLive(o.state) then o.qty else 0 }

  function UnknownQty(l: Line): Order -> int { (o: Order) => if On(o, l) && o.state == Unknown then o.qty else 0 }

  function LiveFilled(l: Line): Order -> int { (o: Order) => if On(o, l) && IsLive(o.state) then o.filledQty else 0 }

  function LiveAmt(l: Line): Order -> int { (o: Order) => if On(o, l) && IsLive(o.state) then o.filledAmt else 0 }

  /** What an order of the line can still take. */
  function Room(o: Order, l: Line): nat {
    if On(o, l) && IsFillable(o.state) && o.filledQty < o.qty then o.qty - o.filledQty else 0
  }

  function RoomFrom(os: seq<Order>, i: nat, l: Line): nat
    requires i <= |os|
    decreases |os| - i
  {
    if i == |os| then 0 else Room(os[i], l) + RoomFrom(os, i + 1, l)
  }

  ghost predicate SameClients(os: seq<Order>, ps: seq<Order>) {
    |os| == |ps| && forall i :: 0 <= i < |os| ==> os[i].clientId == ps[i].clientId
  }

  // ---- Operations ----

  /** A fill is booked: the log gets a row and the order moves on. */
  function Booked(b: Book, i: nat, qty: int, amt: int, fromNotice: bool, ts: real): Book
    requires i < |b.orders|
  {
    var o := b.orders[i];
    var filled := o.filledQty + qty;
    b.(fills := b.fills + [Fill(i, qty, amt, fromNotice, ts)],
       orders := b.orders[i := o.(filledQty := filled, filledAmt := o.filledAmt + amt, state := if filled == o.qty then Filled else Partial)])
  }

  function FindClient(os: seq<Order>, clientId: string): (r: Option<nat>)
    ensures r.Some? ==> r.value < |os| && os[r.value].clientId == clientId
    ensures r == None ==> forall i :: 0 <= i < |os| ==> os[i].clientId != clientId
  {
    if os == [] then None
    else if FindClient(os[..|os| - 1], clientId).Some? then FindClient(os[..|os| - 1], clientId)
    else if os[|os| - 1].clientId == clientId then Some(|os| - 1)
    else None
  }

  datatype LedgerError = BadQuantity | BadPrice | NoSuchOrder

  datatype Draft = Draft(clientId: string, date: Date, symbol: string, side: Side, qty: int, price: int, estPrice: int)

  /** A repeated client id gives back the order it made; a new one is written before it is sent. */
  function NewOrder(b: Book, d: Draft, now: real): Result<(Book, nat, bool), LedgerError> {
    var found := FindClient(b.orders, d.clientId);
    if found.Some? then Ok((b, found.value, false))
    else if d.qty <= 0 then Err(BadQuantity)
    else if d.price < 0 then Err(BadPrice)
    else
      var est := if d.estPrice != 0 then d.estPrice else d.price;
      Ok((b.(orders := b.orders + [Order(d.clientId, d.date, d.symbol, d.side, d.qty, d.price, est, PendingSubmit, None, 0, 0, now)]),
          |b.orders|, true))
  }

  function Marked(b: Book, i: nat, state: OrderState, brokerNo: Option<string>): Book
    requires i < |b.orders|
  {
    var o := b.orders[i];
    b.(orders := b.orders[i := o.(state := state, brokerNo := if brokerNo.Some? then brokerNo else o.brokerNo)])
  }

  function RecoverOne(o: Order): Order {
    if o.state == PendingSubmit then o.(state := Unknown) else o
  }

  function Recovered(b: Book): Book {
    b.(orders := seq(|b.orders|, i requires 0 <= i < |b.orders| => RecoverOne(b.orders[i])))
  }

  datatype Break =
    | NoBaseline
    | UnexplainedBrokerOrders(extra: int)
    | OrdersMissingAtBroker(missing: int)
    | FillsBelowLedger(delta: int)
    | FillsExceedOrders(delta: int, room: int)

  function ResolveOne(o: Order, l: Line, to: OrderState, now: real): Order {
    if On(o, l) && o.state == Unknown && (to == Accepted || now - o.created > UNKNOWN_GRACE) then o.(state := to) else o
  }

  /** Orders of unknown fate are found sent, or after the grace time not sent. */
  function Resolved(b: Book, l: Line, to: OrderState, now: real): Book {
    b.(orders := seq(|b.orders|, i requires 0 <= i < |b.orders| => ResolveOne(b.orders[i], l, to, now)))
  }

  /** Fills reported by notices that the totals may not show yet. */
  function RecentNotices(os: seq<Order>, ns: seq<Notice>, l: Line, now: real): int {
    if ns == [] then 0
    else
      var n := ns[|ns| - 1];
      RecentNotices(os, ns[..|ns| - 1], l, now) +
      if n.ts > now - NOTICE_GRACE && n.order < |os| && On(os[n.order], l) && IsLive(os[n.order].state) then n.qty else 0
  }

  /** The increase is given to the open orders in turn; `share` rounds an order's part of the amount, and the
      last part takes what is left. */
  function Distributed(b: Book, i: nat, l: Line, left: int, amtLeft: int, delta: int, amtDelta: int, share: (int, int, int) -> int, now: real): (c: Book)
    requires i <= |b.orders|
    ensures |c.orders| == |b.orders| && c.closed == b.closed
    ensures SameClients(b.orders, c.orders)
    decreases |b.orders| - i
  {
    if i == |b.orders| || left == 0 then b
    else if Room(b.orders[i], l) == 0 then Distributed(b, i + 1, l, left, amtLeft, delta, amtDelta, share, now)
    else
      var take := if Room(b.orders[i], l) < left then Room(b.orders[i], l) else left;
      var amt := if take == left then amtLeft else share(amtDelta, take, delta);
      Distributed(Booked(b, i, take, amt, false, now), i + 1, l, left - take, amtLeft - amt, delta, amtDelta, share, now)
  }

  /** The broker's totals for a line are applied: first the order quantities, then the fills. */
  function ApplyTotals(b: Book, l: Line, broker: Totals, now: real, share: (int, int, int) -> int): (Book, seq<Break>) {
    if l !in b.totals then (b, [NoBaseline])
    else
      var extra := broker.ordQty - b.totals[l].ordQty - Sum(b.orders, LiveQty(l));
      if extra > 0 then
        if Sum(b.orders, UnknownQty(l)) == extra then ApplyFills(Resolved(b, l, Accepted, now), l, broker, now, share, [])
        else (b, [UnexplainedBrokerOrders(extra)])
      else
        ApplyFills(Resolved(b, l, NotSent, now), l, broker, now, share, if extra < 0 then [OrdersMissingAtBroker(-extra)] else [])
  }

  function ApplyFills(b: Book, l: Line, broker: Totals, now: real, share: (int, int, int) -> int, breaks: seq<Break>): (r: (Book, seq<Break>))
    requires l in b.totals
    ensures |r.0.orders| == |b.orders| && r.0.closed == b.closed
    ensures SameClients(b.orders, r.0.orders)
  {
    var delta := broker.fillQty - b.totals[l].fillQty - Sum(b.orders, LiveFilled(l));
    var amtDelta := broker.fillAmt - b.totals[l].fillAmt - Sum(b.orders, LiveAmt(l));
    if delta < 0 then (b, if -delta <= RecentNotices(b.orders, b.notices, l, now) then breaks else breaks + [FillsBelowLedger(delta)])
    else if delta == 0 then (b, breaks)
    else if delta > RoomFrom(b.orders, 0, l) then (b, breaks + [FillsExceedOrders(delta, RoomFrom(b.orders, 0, l))])
    else (Distributed(b, 0, l, delta, amtDelta, delta, amtDelta, share, now), breaks)
  }

  function StripZeros(s: string): string {
    if s != "" && s[0] == '0' then StripZeros(s[1..]) else s
  }

  predicate Answers(o: Order, date: Date, number: string) {
    o.date == date && o.brokerNo.Some? && StripZeros(o.brokerNo.value) == StripZeros(number)
  }

  /** The first order of the day that carries the broker's number. */
  function FindBrokerNo(os: seq<Order>, date: Date, number: string): (r: Option<nat>)
    ensures r.Some? ==> r.value < |os| && Answers(os[r.value], date, number)
    ensures forall i :: 0 <= i < (if r.Some? then r.value else |os|) ==> !Answers(os[i], date, number)
  {
    if os == [] then None
    else
      var front, o := FindBrokerNo(os[..|os| - 1], date, number), os[|os| - 1];
      if front.Some? then front
      else if Answers(o, date, number) then Some(|os| - 1)
      else None
  }

  datatype NoticeResult = Applied | Duplicate | Unmatched | Ignored

  function ApplyNotice(b: Book, date: Date, number: string, qty: int, price: int, key: string, now: real): (Book, NoticeResult) {
    if exists n :: n in b.notices && n.key == key then (b, Duplicate)
    else
      var found := FindBrokerNo(b.orders, date, number);
      if found == None then (b, Unmatched)
      else
        var o := b.orders[found.value];
        if !IsFillable(o.state) || qty <= 0 || qty > o.qty - o.filledQty then (b, Ignored)
        else
          var c := Booked(b, found.value, qty, qty * price, true, now);
          (c.(notices := b.notices + [Notice(key, found.value, qty, qty * price, now)]), Applied)
  }

  // ---- Closing a day ----

  function DayCount(os: seq<Order>, i: nat, date: Date): nat
    requires i <= |os|
    decreases |os| - i
  {
    if i == |os| then 0 else (if os[i].date == date then 1 else 0) + DayCount(os, i + 1, date)
  }

  /** Order `i` is among the newest hundred thousand of its day: closing looks no further. */
  predicate InScope(os: seq<Order>, i: nat, date: Date)
    requires i < |os|
  {
    os[i].date == date && DayCount(os, i + 1, date) < CLOSE_LIMIT
  }

  function ScopeSum(os: seq<Order>, i: nat, date: Date, f: Order -> int): int
    requires i <= |os|
    decreases |os| - i
  {
    if i == |os| then 0 else (if InScope(os, i, date) then f(os[i]) else 0) + ScopeSum(os, i + 1, date, f)
  }

  predicate Unresolved(s: OrderState) { s == PendingSubmit || s == Unknown }

  predicate AnyUnresolved(os: seq<Order>, date: Date) {
    exists i :: 0 <= i < |os| && InScope(os, i, date) && Unresolved(os[i].state)
  }

  /** The orders of the day, newest first, whose fate is still open. */
  function UnresolvedIds(os: seq<Order>, i: nat, date: Date): (ids: seq<nat>)
    requires i <= |os|
    ensures forall j :: j in ids <==> i <= j < |os| && InScope(os, j, date) && Unresolved(os[j].state)
    ensures forall a, b :: 0 <= a < b < |ids| ==> ids[b] < ids[a]
    decreases |os| - i
  {
    if i == |os| then []
    else
      var newer := UnresolvedIds(os, i + 1, date);
      assert forall a :: 0 <= a < |newer| ==> newer[a] in newer;
      if InScope(os, i, date) && Unresolved(os[i].state) then newer + [i] else newer
  }

  function ClosedOrder(os: seq<Order>, i: nat, date: Date): Order
    requires i < |os|
  {
    if InScope(os, i, date) && IsFillable(os[i].state) then os[i].(state := Expired) else os[i]
  }

  function CountOf(p: OrderState -> bool): Order -> int { (o: Order) => if p(o.state) then 1 else 0 }

  function FilledIf(p: OrderState -> bool): Order -> int { (o: Order) => if p(o.state) then o.filledQty else 0 }

  function AmtIf(p: OrderState -> bool): Order -> int { (o: Order) => if p(o.state) then o.filledAmt else 0 }

  function OpenIf(p: OrderState -> bool): Order -> int { (o: Order) => if p(o.state) then o.qty - o.filledQty else 0 }

  function QtyIf(p: OrderState -> bool): Order -> int { (o: Order) => if p(o.state) then o.qty else 0 }

  function DaySummary(os: seq<Order>, date: Date, now: real): Summary {
    Summary(now, ScopeSum(os, 0, date, CountOf(IsLive)),
            ScopeSum(os, 0, date, CountOf(IsRejected)), ScopeSum(os, 0, date, CountOf(IsNotSent)),
            ScopeSum(os, 0, date, FilledIf(IsLive)), ScopeSum(os, 0, date, AmtIf(IsLive)),
            ScopeSum(os, 0, date, CountOf(IsFillable)), ScopeSum(os, 0, date, OpenIf(IsFillable)))
  }

  datatype CloseResult = Closed(summary: Summary) | HasUnresolved(ids: seq<nat>) | HasBreaks(count: int)

  function CloseDay(b: Book, date: Date, openBreaks: int, now: real): (Book, CloseResult) {
    if date in b.closed then (b, Closed(b.closed[date]))
    else if AnyUnresolved(b.orders, date) then (b, HasUnresolved(UnresolvedIds(b.orders, 0, date)))
    else if openBreaks != 0 then (b, HasBreaks(openBreaks))
    else
      var summary := DaySummary(b.orders, date, now);
      (b.(orders := seq(|b.orders|, i requires 0 <= i < |b.orders| => ClosedOrder(b.orders, i, date)),
          closed := b.closed[date := summary]),
       Closed(summary))
  }

  // ---- Expected holdings ----

  function Signed(date: Date, symbol: string): Order -> int {
    (o: Order) => if o.date != date || o.symbol != symbol then 0 else if o.side == Buy then o.filledQty else -o.filledQty
  }

  function Baseline(b: Book, date: Date, symbol: string): int {
    if (date, symbol) in b.holdings then b.holdings[(date, symbol)] else 0
  }

  function ExpectedHolding(b: Book, date: Date, symbol: string): int {
    Baseline(b, date, symbol) + Sum(b.orders, Signed(date, symbol))
  }

  // ---- Runs ----

  /** `SubmitResult` is what the order desk records after sending an order it has just written. */
  datatype Event =
    | Place(draft: Draft, now: real)
    | SubmitResult(order: nat, state: OrderState, brokerNo: Option<string>)
    | Restart
    | TotalsBaseline(line: Line, totals: Totals)
    | HoldingsBaseline(date: Date, holdings: map<string, int>)
    | BrokerTotals(line: Line, totals: Totals, now: real, share: (int, int, int) -> int)
    | FillNotice(date: Date, number: string, qty: int, price: int, key: string, now: real)
    | Close(date: Date, openBreaks: int, now: real)

  function WithHoldings(b: Book, date: Date, holdings: map<string, int>): Book {
    if date in b.holdingsTaken then b
    else
      b.(holdingsTaken := b.holdingsTaken + {date},
         holdings := b.holdings + map s | s in holdings :: (date, s) := holdings[s])
  }

  function Step(b: Book, e: Event): Book {
    match e
    case Place(d, now) => (match NewOrder(b, d, now) case Ok(r) => r.0 case Err(_) => b)
    case SubmitResult(i, s, no) =>
      if i < |b.orders| && b.orders[i].state == PendingSubmit && s in {Accepted, Rejected, Unknown} then Marked(b, i, s, no) else b
    case Restart => Recovered(b)
    case TotalsBaseline(l, t) => if l in b.totals then b else b.(totals := b.totals[l := t])
    case HoldingsBaseline(d, h) => WithHoldings(b, d, h)
    case BrokerTotals(l, t, now, share) => ApplyTotals(b, l, t, now, share).0
    case FillNotice(d, number, qty, price, key, now) => ApplyNotice(b, d, number, qty, price, key, now).0
    case Close(d, n, now) => CloseDay(b, d, n, now).0
  }

  function Run(b: Book, es: seq<Event>): Book
    decreases |es|
  {
    if es == [] then b else Step(Run(b, es[..|es| - 1]), es[|es| - 1])
  }
}
