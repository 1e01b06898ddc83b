/** The trading contest's books: accounts, positions and orders beside a hash-chained journal, the operations on
    them, and the audit that recomputes the tables from the journal. */
module ContestBook {
  import opened Wrappers

  datatype Side = Buy | Sell

  /** A journal entry's kind and detail. */
  datatype Detail =
    | Deposit(amount: int)
    | Fill(order: nat, symbol: string, side: Side, qty: int, price: int, gross: int, fee: int, tax: int, cashDelta: int)

  /** What the hash of a row covers; `ts` is the time as text. */
  datatype Content = Content(ts: string, pid: nat, detail: Detail)

  datatype Row = Row(content: Content, prevHash: string, hash: string)

  datatype Position = Position(qty: int, cost: int)

  datatype Order = Order(
    pid: nat, clientId: string, symbol: string, side: Side, qty: int, price: int, amount: int, fee: int, tax: int, filled: bool)

  type Holding = (nat, string)

  datatype Books = Books(
    invites: map<string, Option<nat>>, nicknames: seq<string>, accounts: map<nat, int>,
    positions: map<Holding, Position>, orders: seq<Order>, journal: seq<Row>)

  const EMPTY := Books(map[], [], map[], map[], [], [])

  const MILLION: int := 1_000_000

  type Hasher = (string, Content) -> string

  datatype Rules = Rules(initialCash: int, feePpm: int, taxPpm: int, genesis: string, chain: Hasher)

  // ---- Operations ----

  datatype ContestError = BadInvite | NicknameTaken | NoAccount | BadQuantity

  function Tip(journal: seq<Row>, genesis: string): string {
    if journal == [] then genesis else journal[|journal| - 1].hash
  }

  function Journaled(b: Books, rules: Rules, ts: string, pid: nat, d: Detail): Books {
    var prev, c := Tip(b.journal, rules.genesis), Content(ts, pid, d);
    b.(journal := b.journal + [Row(c, prev, rules.chain(prev, c))])
  }

  /** One invitation, one participant; joining deposits the starting cash. */
  function SignedUp(b: Books, rules: Rules, code: string, nickname: string, ts: string): Result<Books, ContestError> {
    if code !in b.invites || b.invites[code].Some? then Err(BadInvite)
    else if nickname in b.nicknames then Err(NicknameTaken)
    else
      var pid := |b.nicknames|;
      Ok(Journaled(b.(nicknames := b.nicknames + [nickname], invites := b.invites[code := Some(pid)],
                      accounts := b.accounts[pid := rules.initialCash]),
                   rules, ts, pid, Deposit(rules.initialCash)))
  }

  function Fee(rules: Rules, amount: int): int { amount * rules.feePpm / MILLION }

  function Tax(rules: Rules, side: Side, amount: int): int { if side == Sell then amount * rules.taxPpm / MILLION else 0 }

  function FindOrder(os: seq<Order>, pid: nat, clientId: string): (r: Option<nat>)
    ensures r.Some? ==> r.value < |os| && os[r.value].pid == pid && os[r.value].clientId == clientId
    ensures r == None ==> forall i :: 0 <= i < |os| ==> os[i].pid != pid || os[i].clientId != clientId
  {
    if os == [] then None
    else
      var front := FindOrder(os[..|os| - 1], pid, clientId);
      if front.Some? then front
      else if os[|os| - 1].pid == pid && os[|os| - 1].clientId == clientId then Some(|os| - 1)
      else None
  }

  function HeldOf(b: Books, k: Holding): Position {
    if k in b.positions then b.positions[k] else Position(0, 0)
  }

  datatype Request = Request(pid: nat, clientId: string, symbol: string, side: Side, qty: int, price: int)

  /** Why an order is rejected: no price, not enough cash, not enough shares. */
  predicate Rejected(b: Books, rules: Rules, q: Request)
    requires q.pid in b.accounts
  {
    || q.price <= 0
    || (q.side == Buy && q.qty * q.price + Fee(rules, q.qty * q.price) > b.accounts[q.pid])
    || (q.side == Sell && q.qty > HeldOf(b, (q.pid, q.symbol)).qty)
  }

  function OrderOf(rules: Rules, q: Request, filled: bool): Order {
    var amount := q.qty * q.price;
    Order(q.pid, q.clientId, q.symbol, q.side, q.qty, q.price, amount, Fee(rules, amount), Tax(rules, q.side, amount), filled)
  }

  function CashDelta(rules: Rules, q: Request): int {
    var amount := q.qty * q.price;
    if q.side == Buy then -(amount + Fee(rules, amount)) else amount - Fee(rules, amount) - Tax(rules, Sell, amount)
  }

  /** The position after a fill; a sale takes out its proportional part of the cost, rounded down. */
  function NewPosition(rules: Rules, q: Request, held: Position): Position
    requires q.side == Sell ==> held.qty > 0
  {
    var amount := q.qty * q.price;
    if q.side == Buy then Position(held.qty + q.qty, held.cost + amount + Fee(rules, amount))
    else Position(held.qty - q.qty, held.cost - held.cost * q.qty / held.qty)
  }

  predicate CanSettle(b: Books, q: Request) {
    q.pid in b.accounts && (q.side == Sell ==> HeldOf(b, (q.pid, q.symbol)).qty > 0)
  }

  /** The tables after a fill. */
  function Moved(b: Books, rules: Rules, q: Request): Books
    requires CanSettle(b, q)
  {
    var k := (q.pid, q.symbol);
    b.(orders := b.orders + [OrderOf(rules, q, true)],
       accounts := b.accounts[q.pid := b.accounts[q.pid] + CashDelta(rules, q)],
       positions := b.positions[k := NewPosition(rules, q, HeldOf(b, k))])
  }

  function FillOf(b: Books, rules: Rules, q: Request): Detail {
    var o := OrderOf(rules, q, true);
    Fill(|b.orders|, q.symbol, q.side, q.qty, q.price, o.amount, o.fee, o.tax, CashDelta(rules, q))
  }

  function Settled(b: Books, rules: Rules, q: Request, ts: string): Books
    requires CanSettle(b, q)
  {
    Journaled(Moved(b, rules, q), rules, ts, q.pid, FillOf(b, rules, q))
  }

  /** A market order at the given price: a repeated client id gives back its order, a rejected order is recorded
      and moves nothing. */
  function Placed(b: Books, rules: Rules, q: Request, ts: string): Result<(Books, nat, bool), ContestError> {
    var found := FindOrder(b.orders, q.pid, q.clientId);
    if found.Some? then Ok((b, found.value, false))
    else if q.pid !in b.accounts then Err(NoAccount)
    else if q.qty <= 0 then Err(BadQuantity)
    else if Rejected(b, rules, q) then Ok((b.(orders := b.orders + [OrderOf(rules, q, false)]), |b.orders|, true))
    else Ok((Settled(b, rules, q, ts), |b.orders|, true))
  }

  // ---- The audit ----

  /** What the journal alone says: cash, share counts and filled orders. */
  datatype Replay = Replay(cash: map<nat, int>, shares: map<Holding, int>, fills: map<nat, Detail>)

  function CashIn(r: Replay, pid: nat): int { if pid in r.cash then r.cash[pid] else 0 }

  function SharesIn(r: Replay, k: Holding): int { if k in r.shares then r.shares[k] else 0 }

  function Replayed(r: Replay, c: Content): Replay {
    match c.detail
    case Deposit(amount) => r.(cash := r.cash[c.pid := CashIn(r, c.pid) + amount])
    case Fill(order, symbol, side, qty, _, _, _, _, delta) =>
      var k := (c.pid, symbol);
      Replay(r.cash[c.pid := CashIn(r, c.pid) + delta],
             r.shares[k := SharesIn(r, k) + if side == Buy then qty else -qty],
             r.fills[order := c.detail])
  }

  function ReplayAll(journal: seq<Row>): Replay {
    if journal == [] then Replay(map[], map[], map[])
    else Replayed(ReplayAll(journal[..|journal| - 1]), journal[|journal| - 1].content)
  }

  predicate Linked(journal: seq<Row>, i: nat, genesis: string, chain: Hasher)
    requires i < |journal|
  {
    var prev := if i == 0 then genesis else journal[i - 1].hash;
    journal[i].prevHash == prev && journal[i].hash == chain(prev, journal[i].content)
  }

  /** The first row that does not continue the chain. */
  function FirstBroken(journal: seq<Row>, i: nat, genesis: string, chain: Hasher): (r: Option<nat>)
    requires i <= |journal|
    ensures r.Some? ==> i <= r.value < |journal| && !Linked(journal, r.value, genesis, chain)
    ensures forall j :: i <= j < (if r.Some? then r.value else |journal|) ==> Linked(journal, j, genesis, chain)
    decreases |journal| - i
  {
    if i == |journal| then None
    else if Linked(journal, i, genesis, chain) then FirstBroken(journal, i + 1, genesis, chain)
    else Some(i)
  }

  datatype Finding =
    | ChainBroken(row: nat)
    | CashMismatch(pid: nat, table: int, journal: int)
    | PositionMismatch(holding: Holding, table: int, journal: int)
    | OrderMismatch(order: nat)

  predicate Less(a: string, b: string) {
    b != [] && (a == [] || a[0] < b[0] || (a[0] == b[0] && Less(a[1..], b[1..])))
  }

  predicate HoldingBefore(h: Holding, k: Holding) { h.0 < k.0 || (h.0 == k.0 && Less(h.1, k.1)) }

  /** The order in which an audit lists its findings: cash, positions, orders, each in ascending order. */
  predicate Precedes(f: Finding, g: Finding) {
    match f
    case ChainBroken(_) => false
    case CashMismatch(pid, _, _) => g.PositionMismatch? || g.OrderMismatch? || (g.CashMismatch? && pid < g.pid)
    case PositionMismatch(h, _, _) => g.OrderMismatch? || (g.PositionMismatch? && HoldingBefore(h, g.holding))
    case OrderMismatch(i) => g.OrderMismatch? && i < g.order
  }

  ghost predicate InOrder(fs: seq<Finding>) {
    forall i, j :: 0 <= i < j < |fs| ==> Precedes(fs[i], fs[j])
  }

  predicate Agrees(o: Order, d: Detail) {
    d.Fill? && o.qty == d.qty && o.price == d.price && o.amount == d.gross && o.fee == d.fee && o.tax == d.tax
  }

  predicate FilledOrder(b: Books, i: nat) { i < |b.orders| && b.orders[i].filled }

  predicate OrderDiffers(b: Books, r: Replay, i: nat) {
    (FilledOrder(b, i) || i in r.fills) && !(FilledOrder(b, i) && i in r.fills && Agrees(b.orders[i], r.fills[i]))
  }

  /** The findings of an audit: a broken chain alone, or every table entry that differs from the journal. */
  predicate IsFinding(b: Books, rules: Rules, f: Finding) {
    var broken := FirstBroken(b.journal, 0, rules.genesis, rules.chain);
    if broken.Some? then f == ChainBroken(broken.value)
    else
      var r := ReplayAll(b.journal);
      match f
      case ChainBroken(_) => false
      case CashMismatch(pid, table, journal) =>
        pid in b.accounts && b.accounts[pid] == table && CashIn(r, pid) == journal && table != journal
      case PositionMismatch(k, table, journal) =>
        (k in b.positions || k in r.shares) && HeldOf(b, k).qty == table && SharesIn(r, k) == journal && table != journal
      case OrderMismatch(i) => OrderDiffers(b, r, i)
  }

  // ---- Runs ----

  datatype Event =
    | Invite(codes: set<string>)
    | SignUp(code: string, nickname: string, ts: string)
    | Trade(request: Request, ts: string)

  function Invited(b: Books, codes: set<string>): Books {
    b.(invites := (map c | c in codes :: None) + b.invites)
  }

  function Step(b: Books, rules: Rules, e: Event): Books {
    match e
    case Invite(codes) => Invited(b, codes)
    case SignUp(code, nickname, ts) => (match SignedUp(b, rules, code, nickname, ts) case Ok(c) => c case Err(_) => b)
    case Trade(q, ts) => (match Placed(b, rules, q, ts) case Ok(r) => r.0 case Err(_) => b)
  }

  function Run(rules: Rules, es: seq<Event>): Books
    decreases |es|
  {
    if es == [] then EMPTY else Step(Run(rules, es[..|es| - 1]), rules, es[|es| - 1])
  }
}
