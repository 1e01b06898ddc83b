/** Where the contest's money and shares come from: an account is the starting cash and the flows of its order rows. */
module ContestMoney {
  import opened Wrappers
  import opened ContestBook
  import opened ContestProofs

  /** `part` is the share of `whole` in parts per million, rounded down. */
  predicate IsShare(part: int, whole: int, ppm: int) { 0 <= whole * ppm - part * 1_000_000 < 1_000_000 }

  /** The amount is quantity times price, the fee and, for a sale, the tax are its shares. */
  predicate RowRight(rules: Rules, o: Order) {
    && o.amount == o.qty * o.price && IsShare(o.fee, o.amount, rules.feePpm)
    && (o.side == Sell ==> IsShare(o.tax, o.amount, rules.taxPpm)) && (o.side == Buy ==> o.tax == 0)
  }

  /** What a filled order moves: a purchase pays the amount and the fee, a sale brings the amount less fee and tax. */
  function CashFlow(o: Order): int {
    if !o.filled then 0 else if o.side == Buy then -(o.qty * o.price + o.fee) else o.qty * o.price - o.fee - o.tax
  }

  function ShareFlow(o: Order): int {
    if !o.filled then 0 else if o.side == Buy then o.qty else -o.qty
  }

  function CashFlows(os: seq<Order>, pid: nat): int {
    if os == [] then 0
    else CashFlows(os[..|os| - 1], pid) + if os[|os| - 1].pid == pid then CashFlow(os[|os| - 1]) else 0
  }

  function ShareFlows(os: seq<Order>, k: Holding): int {
    if os == [] then 0
    else
      var o := os[|os| - 1];
      ShareFlows(os[..|os| - 1], k) + if (o.pid, o.symbol) == k then ShareFlow(o) else 0
  }

  lemma OneMoreFlow(os: seq<Order>, o: Order, pid: nat, k: Holding)
    ensures CashFlows(os + [o], pid) == CashFlows(os, pid) + if o.pid == pid then CashFlow(o) else 0
    ensures ShareFlows(os + [o], k) == ShareFlows(os, k) + if (o.pid, o.symbol) == k then ShareFlow(o) else 0
  {
    assert (os + [o])[..|os|] == os;
  }

  // ---- One order ----

  lemma SharesRoundDown(whole: int, ppm: int)
    ensures IsShare(whole * ppm / MILLION, whole, ppm)
  {}

  lemma OrderRowIsRight(rules: Rules, q: Request, filled: bool)
    ensures var o := OrderOf(rules, q, filled);
            && RowRight(rules, o)
            && (o.pid, o.clientId, o.symbol, o.side, o.qty, o.price, o.filled) ==
               (q.pid, q.clientId, q.symbol, q.side, q.qty, q.price, filled)
  {
    var amount := q.qty * q.price;
    SharesRoundDown(amount, rules.feePpm);
    SharesRoundDown(amount, rules.taxPpm);
    hide IsShare;
  }

  /** A new row of the order table, with what the request said. */
  ghost predicate IsRowOf(rules: Rules, o: Order, q: Request) {
    && RowRight(rules, o)
    && (o.pid, o.clientId, o.symbol, o.side, o.qty, o.price) == (q.pid, q.clientId, q.symbol, q.side, q.qty, q.price)
  }

  /** There is a price, and the cash or the shares are there. */
  predicate CanFill(b: Books, o: Order)
    requires o.pid in b.accounts
  {
    && o.price > 0
    && (o.side == Buy ==> o.qty * o.price + o.fee <= b.accounts[o.pid])
    && (o.side == Sell ==> o.qty <= HeldOf(b, (o.pid, o.symbol)).qty)
  }

  /** The position after a fill: a purchase adds what was paid to the cost, a sale takes out the part of the cost that
      belongs to the shares sold, rounded down. */
  predicate IsPositionAfter(held: Position, o: Order, p: Position) {
    && p.qty == held.qty + ShareFlow(o)
    && (o.side == Buy ==> p.cost == held.cost + o.qty * o.price + o.fee)
    && (o.side == Sell ==> 0 <= held.cost * o.qty - (held.cost - p.cost) * held.qty < held.qty)
  }

  /** From `b` to `c` the order is filled: cash, shares and one journal row. */
  ghost predicate Fills(b: Books, c: Books, o: Order, ts: string)
    requires o.pid in b.accounts
  {
    var k := (o.pid, o.symbol);
    && c.invites == b.invites && c.nicknames == b.nicknames
    && c.accounts == b.accounts[o.pid := b.accounts[o.pid] + CashFlow(o)]
    && k in c.positions && c.positions == b.positions[k := c.positions[k]] && IsPositionAfter(HeldOf(b, k), o, c.positions[k])
    && |c.journal| == |b.journal| + 1 && c.journal[..|b.journal|] == b.journal
    && c.journal[|b.journal|].content ==
         Content(ts, o.pid, Fill(|b.orders|, o.symbol, o.side, o.qty, o.price, o.amount, o.fee, o.tax, CashFlow(o)))
  }

  lemma SettledFills(b: Books, rules: Rules, q: Request, ts: string)
    requires CanSettle(b, q)
    ensures var c := Settled(b, rules, q, ts); Fills(b, c, OrderOf(rules, q, true), ts)
  {
    var c, k := Settled(b, rules, q, ts), (q.pid, q.symbol);
    assert c.journal[..|b.journal|] == b.journal;
    assert k in c.positions;
    CostLeaves(rules, q, HeldOf(b, k));
    hide NewPosition, IsPositionAfter, Fee, Tax;
  }

  lemma CostLeaves(rules: Rules, q: Request, held: Position)
    requires q.side == Sell ==> held.qty > 0
    ensures IsPositionAfter(held, OrderOf(rules, q, true), NewPosition(rules, q, held))
  {
    if q.side == Sell {
      RoundsDown(held.cost * q.qty, held.qty);
      assert held.cost - NewPosition(rules, q, held).cost == held.cost * q.qty / held.qty;
    }
    hide Fee, Tax;
  }

  lemma RoundsDown(x: int, n: int)
    requires n > 0
    ensures 0 <= x - x / n * n < n
  {
    assert x == n * (x / n) + x % n;
  }

  /** An order placed: given back if its client id is known to the participant; else refused without an account or a
      quantity; else recorded as a row, which is filled exactly when there is a price and the cash or the shares are
      there; a row that is not filled moves nothing. */
  lemma PlacedMeans(b: Books, rules: Rules, q: Request, ts: string)
    ensures var known := exists i :: 0 <= i < |b.orders| && b.orders[i].pid == q.pid && b.orders[i].clientId == q.clientId;
            match Placed(b, rules, q, ts)
            case Err(e) => !known && (e == NoAccount <==> q.pid !in b.accounts) && (e == BadQuantity <==> q.pid in b.accounts && q.qty <= 0)
            case Ok((c, i, isNew)) =>
              && isNew == !known
              && (known ==> c == b && i < |b.orders| && b.orders[i].pid == q.pid && b.orders[i].clientId == q.clientId)
              && (isNew ==>
                    && q.pid in b.accounts && q.qty > 0 && i == |b.orders| && |c.orders| == i + 1 && c.orders[..i] == b.orders
                    && var o := c.orders[i];
                    && IsRowOf(rules, o, q) && (o.filled <==> CanFill(b, o))
                    && (o.filled ==> Fills(b, c, o, ts))
                    && (!o.filled ==> c == b.(orders := c.orders)))
  {
    hide FindOrder, Settled, OrderOf, Fee, RowRight, Fills;
    var found := FindOrder(b.orders, q.pid, q.clientId);
    if found == None && q.pid in b.accounts && q.qty > 0 {
      var filled := !Rejected(b, rules, q);
      OrderRowIsRight(rules, q, filled);
      if filled {
        SettledFills(b, rules, q, ts);
        SettledRow(b, rules, q, ts);
        RejectedMeans(b, rules, q);
      } else {
        assert (b.orders + [OrderOf(rules, q, false)])[..|b.orders|] == b.orders;
        RejectedMeans(b, rules, q);
      }
    }
  }

  lemma SettledRow(b: Books, rules: Rules, q: Request, ts: string)
    requires CanSettle(b, q)
    ensures Settled(b, rules, q, ts).orders == b.orders + [OrderOf(rules, q, true)]
  {}

  lemma RejectedMeans(b: Books, rules: Rules, q: Request)
    requires q.pid in b.accounts
    ensures forall filled :: CanFill(b, OrderOf(rules, q, filled)) <==> !Rejected(b, rules, q)
  {}

  // ---- Every run ----

  /** Every row is right, and every account and holding is what its rows moved. */
  ghost predicate MoneyRight(b: Books, rules: Rules) {
    && (forall o :: o in b.orders ==> RowRight(rules, o) && o.pid < |b.nicknames|)
    && (forall p: nat :: p in b.accounts <==> p < |b.nicknames|)
    && (forall p :: p in b.accounts ==> b.accounts[p] == rules.initialCash + CashFlows(b.orders, p))
    && (forall k :: HeldOf(b, k).qty == ShareFlows(b.orders, k))
  }

  lemma {:induction false} NoFlowsBeyond(os: seq<Order>, pid: nat)
    requires forall o :: o in os ==> o.pid < pid
    ensures CashFlows(os, pid) == 0
    decreases |os|
  {
    if os == [] {
    } else {
      assert os[|os| - 1] in os;
      NoFlowsBeyond(os[..|os| - 1], pid);
    }
  }

  lemma TradeKeepsMoney(b: Books, rules: Rules, q: Request, ts: string)
    requires MoneyRight(b, rules)
    ensures MoneyRight(Step(b, rules, Trade(q, ts)), rules)
  {
    PlacedMeans(b, rules, q, ts);
    hide Placed, RowRight, CashFlow, ShareFlow, CashFlows, ShareFlows;
    var r := Placed(b, rules, q, ts);
    if r.Ok? && r.value.2 {
      var c, o := r.value.0, r.value.0.orders[|b.orders|];
      assert c.orders == b.orders + [o];
      assert forall x :: x in c.orders ==> x in b.orders || x == o;
      forall p: nat
        ensures CashFlows(c.orders, p) == CashFlows(b.orders, p) + if o.pid == p then CashFlow(o) else 0
      {
        OneMoreFlow(b.orders, o, p, (p, ""));
      }
      forall k: Holding
        ensures ShareFlows(c.orders, k) == ShareFlows(b.orders, k) + if (o.pid, o.symbol) == k then ShareFlow(o) else 0
      {
        OneMoreFlow(b.orders, o, k.0, k);
      }
      if !o.filled {
        NothingFlows(o);
      }
    }
  }

  lemma NothingFlows(o: Order)
    requires !o.filled
    ensures CashFlow(o) == 0 && ShareFlow(o) == 0
  {}

  lemma SignUpKeepsMoney(b: Books, rules: Rules, code: string, nickname: string, ts: string)
    requires MoneyRight(b, rules)
    ensures MoneyRight(Step(b, rules, SignUp(code, nickname, ts)), rules)
  {
    hide RowRight, ShareFlows;
    NoFlowsBeyond(b.orders, |b.nicknames|);
    hide CashFlows;
    var c := Step(b, rules, SignUp(code, nickname, ts));
    assert c.positions == b.positions;
    assert forall k :: HeldOf(c, k) == HeldOf(b, k);
  }

  lemma StepKeepsMoney(b: Books, rules: Rules, e: Event)
    requires MoneyRight(b, rules)
    ensures MoneyRight(Step(b, rules, e), rules)
  {
    match e
    case Invite(codes) =>
      hide RowRight, ShareFlows, CashFlows;
      assert forall k :: HeldOf(Invited(b, codes), k) == HeldOf(b, k);
    case SignUp(code, nickname, ts) =>
      hide MoneyRight, Step;
      SignUpKeepsMoney(b, rules, code, nickname, ts);
    case Trade(q, ts) =>
      hide MoneyRight, Step;
      TradeKeepsMoney(b, rules, q, ts);
  }

  /** In every run: amount, fee and tax of every order row are right, each account is the starting cash and the flows of
      its participant's filled rows, and each holding is the shares bought less the shares sold. */
  lemma {:induction false} MoneyIsTheFlows(rules: Rules, es: seq<Event>)
    ensures var b := Run(rules, es);
            && (forall o :: o in b.orders ==> RowRight(rules, o))
            && (forall p: nat :: p in b.accounts <==> p < |b.nicknames|)
            && (forall p :: p in b.accounts ==> b.accounts[p] == rules.initialCash + CashFlows(b.orders, p))
            && (forall k :: HeldOf(b, k).qty == ShareFlows(b.orders, k))
  {
    RunKeepsMoney(rules, es);
  }

  lemma {:induction false} RunKeepsMoney(rules: Rules, es: seq<Event>)
    ensures MoneyRight(Run(rules, es), rules)
    decreases |es|
  {
    hide MoneyRight, Step;
    if es == [] {
      NoMoneyYet(rules);
    } else {
      RunKeepsMoney(rules, es[..|es| - 1]);
      StepKeepsMoney(Run(rules, es[..|es| - 1]), rules, es[|es| - 1]);
    }
  }

  lemma NoMoneyYet(rules: Rules)
    ensures MoneyRight(EMPTY, rules)
  {}

  // ---- Sign-up ----

  /** Who signed up with which code: each participant with one of its own, no two nicknames alike. */
  ghost predicate Admitted(b: Books) {
    && (forall i, j :: 0 <= i < j < |b.nicknames| ==> b.nicknames[i] != b.nicknames[j])
    && (forall c :: c in b.invites && b.invites[c].Some? ==> b.invites[c].value < |b.nicknames|)
    && (forall p: nat :: p < |b.nicknames| ==> HasInvite(b, p))
    && (forall c, d :: c in b.invites && d in b.invites && b.invites[c].Some? && b.invites[c] == b.invites[d] ==> c == d)
  }

  predicate IsInviteOf(b: Books, c: string, p: nat) { c in b.invites && b.invites[c] == Some(p) }

  ghost predicate HasInvite(b: Books, p: nat) { exists c :: IsInviteOf(b, c, p) }

  /** A sign-up takes an unused code and a new nickname; it makes the next participant, with the starting cash and a
      journal row that says so. */
  lemma SignedUpMeans(b: Books, rules: Rules, code: string, nickname: string, ts: string)
    ensures var r, unused := SignedUp(b, rules, code, nickname, ts), code in b.invites && b.invites[code] == None;
            && (r.Ok? <==> unused && nickname !in b.nicknames)
            && (r == Err(BadInvite) <==> !unused)
            && (r == Err(NicknameTaken) <==> unused && nickname in b.nicknames)
            && (r.Ok? ==>
                  var c, pid := r.value, |b.nicknames|;
                  && c == b.(nicknames := b.nicknames + [nickname], invites := b.invites[code := Some(pid)],
                             accounts := b.accounts[pid := rules.initialCash], journal := c.journal)
                  && |c.journal| == |b.journal| + 1 && c.journal[..|b.journal|] == b.journal
                  && c.journal[|b.journal|].content == Content(ts, pid, Deposit(rules.initialCash)))
  {
    var r := SignedUp(b, rules, code, nickname, ts);
    if r.Ok? {
      assert r.value.journal[..|b.journal|] == b.journal;
    }
  }

  lemma StepAdmits(b: Books, rules: Rules, e: Event)
    requires Admitted(b)
    ensures Admitted(Step(b, rules, e))
  {
    var c := Step(b, rules, e);
    match e
    case Invite(codes) =>
      forall p: nat | p < |b.nicknames|
        ensures HasInvite(c, p)
      {
        assert HasInvite(b, p);
        var x :| IsInviteOf(b, x, p);
        assert IsInviteOf(c, x, p);
      }
    case SignUp(code, nickname, ts) =>
      SignedUpMeans(b, rules, code, nickname, ts);
      hide SignedUp;
      if SignedUp(b, rules, code, nickname, ts).Ok? {
        forall p: nat | p < |c.nicknames|
          ensures HasInvite(c, p)
        {
          if p < |b.nicknames| {
            assert HasInvite(b, p);
            var x :| IsInviteOf(b, x, p);
            assert IsInviteOf(c, x, p);
          } else {
            assert IsInviteOf(c, code, p);
          }
        }
      }
    case Trade(q, ts) =>
      PlacedMeans(b, rules, q, ts);
      hide Placed, IsRowOf, CanFill;
      assert c.invites == b.invites && c.nicknames == b.nicknames;
      assert forall p: nat :: HasInvite(b, p) ==> HasInvite(c, p) by { assert forall x, p: nat :: IsInviteOf(b, x, p) ==> IsInviteOf(c, x, p); }
  }

  /** In every run: every participant came with an invitation of their own, and no nickname is there twice. */
  lemma {:induction false} OneInvitationOneParticipant(rules: Rules, es: seq<Event>)
    ensures Admitted(Run(rules, es))
    decreases |es|
  {
    hide Admitted, Step;
    if es == [] {
      assert Admitted(EMPTY) by { NobodyAdmitted(); }
    } else {
      OneInvitationOneParticipant(rules, es[..|es| - 1]);
      StepAdmits(Run(rules, es[..|es| - 1]), rules, es[|es| - 1]);
    }
  }

  lemma NobodyAdmitted()
    ensures Admitted(EMPTY)
  {}
}
