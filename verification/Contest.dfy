/** The contest ledger: one object that keeps the books, one method for each operation. */
module Contest {
  import opened Wrappers
  import opened ContestBook
  import opened ContestProofs
  import opened Numbers

  /** The link of a row, as a walk sees it that carries the last hash along. */
  lemma PrevIsTip(journal: seq<Row>, i: nat, rules: Rules)
    requires i < |journal|
    ensures Linked(journal, i, rules.genesis, rules.chain) <==>
              var prev, row := Tip(journal[..i], rules.genesis), journal[i];
              row.prevHash == prev && row.hash == rules.chain(prev, row.content)
    ensures Tip(journal[..i + 1], rules.genesis) == journal[i].hash
    ensures FirstBroken(journal, i, rules.genesis, rules.chain) ==
              if Linked(journal, i, rules.genesis, rules.chain) then FirstBroken(journal, i + 1, rules.genesis, rules.chain)
              else Some(i)
  {}

  lemma NothingReplayed(journal: seq<Row>, rules: Rules)
    ensures Tip(journal[..0], rules.genesis) == rules.genesis && ReplayAll(journal[..0]) == Replay(map[], map[], map[])
    ensures FirstBroken(journal, |journal|, rules.genesis, rules.chain) == None
  {}

  lemma ReplayOne(journal: seq<Row>, i: nat)
    requires i < |journal|
    ensures ReplayAll(journal[..i + 1]) == Replayed(ReplayAll(journal[..i]), journal[i].content)
  {
    assert journal[..i + 1][..i] == journal[..i];
  }

  function Elements(codes: seq<string>): set<string> { set c | c in codes }

  lemma NobodyInvited(b: Books)
    ensures Invited(b, Elements([])) == b
  {
    assert Elements([]) == {};
    assert Invited(b, {}).invites == b.invites;
  }

  lemma OneMoreInvited(b: Books, codes: seq<string>, i: nat)
    requires i < |codes|
    ensures var now := Invited(b, Elements(codes[..i]));
            Invited(b, Elements(codes[..i + 1])) ==
              if codes[i] in now.invites then now else now.(invites := now.invites[codes[i] := None])
  {
    hide Invited;
    assert codes[..i + 1] == codes[..i] + [codes[i]];
    assert Elements(codes[..i + 1]) == Elements(codes[..i]) + {codes[i]};
    InvitedOne(b, Elements(codes[..i]), codes[i]);
  }

  lemma InvitedOne(b: Books, codes: set<string>, code: string)
    ensures var now := Invited(b, codes);
            Invited(b, codes + {code}).invites == if code in now.invites then now.invites else now.invites[code := None]
    ensures Invited(b, codes + {code}) == b.(invites := Invited(b, codes + {code}).invites)
    ensures Invited(b, codes) == b.(invites := Invited(b, codes).invites)
  {}

  class ContestLedger {
    var invites: map<string, Option<nat>>
    var nicknames: seq<string>
    var accounts: map<nat, int>
    var positions: map<Holding, Position>
    var orders: seq<Order>
    var journal: seq<Row>
    const rules: Rules

    ghost function State(): Books
      reads this
    {
      Books(invites, nicknames, accounts, positions, orders, journal)
    }

    constructor (rules: Rules)
      ensures State() == EMPTY && this.rules == rules
    {
      invites, nicknames, accounts := map[], [], map[];
      positions, orders, journal := map[], [], [];
      this.rules := rules;
    }

    method Journal(ts: string, pid: nat, d: Detail)
      modifies this`journal
      ensures State() == Journaled(old(State()), rules, ts, pid, d)
    {
      var prev := rules.genesis;
      if journal != [] {
        prev := journal[|journal| - 1].hash;
      }
      var c := Content(ts, pid, d);
      journal := journal + [Row(c, prev, rules.chain(prev, c))];
    }

    method CreateInvites(codes: seq<string>)
      modifies this`invites
      ensures State() == Invited(old(State()), Elements(codes))
    {
      ghost var was := State();
      NobodyInvited(was);
      for i := 0 to |codes|
        invariant State() == Invited(was, Elements(codes[..i]))
      {
        OneMoreInvited(was, codes, i);
        hide Invited;
        if codes[i] !in invites {
          invites := invites[codes[i] := None];
        }
      }
      assert codes[..|codes|] == codes;
    }

    /** One invitation, one participant. */
    method SignUp(code: string, nickname: string, ts: string) returns (r: Result<nat, ContestError>)
      modifies this
      ensures match SignedUp(old(State()), rules, code, nickname, ts)
              case Ok(b) => State() == b && r == Ok(|old(nicknames)|)
              case Err(e) => State() == old(State()) && r == Err(e)
    {
      if code !in invites || invites[code].Some? {
        return Err(BadInvite);
      }
      if nickname in nicknames {
        return Err(NicknameTaken);
      }
      var pid := |nicknames|;
      nicknames := nicknames + [nickname];
      invites := invites[code := Some(pid)];
      accounts := accounts[pid := rules.initialCash];
      Journal(ts, pid, Deposit(rules.initialCash));
      r := Ok(pid);
    }

    /** The order's index, and whether it is new. */
    method Place(q: Request, ts: string) returns (r: Result<(nat, bool), ContestError>)
      modifies this
      ensures match Placed(old(State()), rules, q, ts)
              case Ok(p) => State() == p.0 && r == Ok((p.1, p.2))
              case Err(e) => State() == old(State()) && r == Err(e)
    {
      var found := FindOrder(orders, q.pid, q.clientId);
      if found.Some? {
        return Ok((found.value, false));
      }
      if q.pid !in accounts {
        return Err(NoAccount);
      }
      if q.qty <= 0 {
        return Err(BadQuantity);
      }
      var amount := q.qty * q.price;
      var fee, tax := Fee(rules, amount), Tax(rules, q.side, amount);
      var cash := accounts[q.pid];
      var held := Position(0, 0);
      if (q.pid, q.symbol) in positions {
        held := positions[(q.pid, q.symbol)];
      }
      var rejected := false;
      if q.price <= 0 {
        rejected := true;
      } else if q.side == Buy && amount + fee > cash {
        rejected := true;
      } else if q.side == Sell && q.qty > held.qty {
        rejected := true;
      }
      var id := |orders|;
      orders := orders + [Order(q.pid, q.clientId, q.symbol, q.side, q.qty, q.price, amount, fee, tax, !rejected)];
      if !rejected {
        var delta, qty, cost := -(amount + fee), held.qty + q.qty, held.cost + amount + fee;
        if q.side == Sell {
          delta, qty, cost := amount - fee - tax, held.qty - q.qty, held.cost - held.cost * q.qty / held.qty;
        }
        accounts := accounts[q.pid := cash + delta];
        positions := positions[(q.pid, q.symbol) := Position(qty, cost)];
        Journal(ts, q.pid, Fill(id, q.symbol, q.side, q.qty, q.price, amount, fee, tax, delta));
      }
      r := Ok((id, true));
    }

    /** Walks the journal, row by row, until a row does not continue the chain. */
    method ReplayJournal() returns (broken: Option<nat>, r: Replay)
      ensures broken == FirstBroken(journal, 0, rules.genesis, rules.chain)
      ensures broken == None ==> r == ReplayAll(journal)
    {
      var prev := rules.genesis;
      r := Replay(map[], map[], map[]);
      hide FirstBroken, Linked, Tip, ReplayAll, Replayed;
      NothingReplayed(journal, rules);
      for i := 0 to |journal|
        invariant prev == Tip(journal[..i], rules.genesis)
        invariant r == ReplayAll(journal[..i])
        invariant FirstBroken(journal, 0, rules.genesis, rules.chain) == FirstBroken(journal, i, rules.genesis, rules.chain)
      {
        var row := journal[i];
        PrevIsTip(journal, i, rules);
        if row.prevHash != prev || row.hash != rules.chain(prev, row.content) {
          return Some(i), r;
        }
        prev := row.hash;
        ReplayOne(journal, i);
        r := ReplayRow(r, row.content);
      }
      assert journal[..|journal|] == journal;
      broken := None;
    }

    static method ReplayRow(r: Replay, c: Content) returns (s: Replay)
      ensures s == Replayed(r, c)
    {
      var pid := c.pid;
      var cash := if pid in r.cash then r.cash[pid] else 0;
      match c.detail {
        case Deposit(amount) =>
          s := r.(cash := r.cash[pid := cash + amount]);
        case Fill(order, symbol, side, qty, _, _, _, _, delta) =>
          var held := if (pid, symbol) in r.shares then r.shares[(pid, symbol)] else 0;
          s := Replay(r.cash[pid := cash + delta],
                      r.shares[(pid, symbol) := held + if side == Buy then qty else -qty],
                      r.fills[order := c.detail]);
      }
    }

    method CashBreaks(r: Replay) returns (breaks: seq<Finding>)
      ensures forall f :: f in breaks <==>
                f.CashMismatch? && f.pid in accounts && f.table == accounts[f.pid] && f.journal == CashIn(r, f.pid) &&
                f.table != f.journal
      ensures InOrder(breaks)
    {
      breaks := [];
      var todo := accounts.Keys;
      while todo != {}
        invariant todo <= accounts.Keys
        invariant forall f :: f in breaks <==>
                    f.CashMismatch? && f.pid in accounts && f.pid !in todo && f.table == accounts[f.pid] &&
                    f.journal == CashIn(r, f.pid) && f.table != f.journal
        invariant forall p, k :: p in accounts && p !in todo && k in todo ==> p < k
        invariant InOrder(breaks)
        decreases todo
      {
        hide InOrder;
        var pid := LeastKey(todo);
        if CashIn(r, pid) != accounts[pid] {
          InOrderJoins(breaks, [CashMismatch(pid, accounts[pid], CashIn(r, pid))]);
          breaks := breaks + [CashMismatch(pid, accounts[pid], CashIn(r, pid))];
        }
        todo := todo - {pid};
      }
    }

    method PositionBreaks(r: Replay) returns (breaks: seq<Finding>)
      ensures forall f :: f in breaks <==>
                f.PositionMismatch? && (f.holding in positions || f.holding in r.shares) &&
                f.table == HeldOf(State(), f.holding).qty && f.journal == SharesIn(r, f.holding) && f.table != f.journal
      ensures InOrder(breaks)
    {
      breaks := [];
      var keys := positions.Keys + r.shares.Keys;
      var todo := keys;
      while todo != {}
        invariant todo <= keys
        invariant forall f :: f in breaks <==>
                    f.PositionMismatch? && f.holding in keys && f.holding !in todo &&
                    f.table == HeldOf(State(), f.holding).qty && f.journal == SharesIn(r, f.holding) && f.table != f.journal
        invariant forall h, k :: h in keys && h !in todo && k in todo ==> HoldingBefore(h, k)
        invariant InOrder(breaks)
        decreases todo
      {
        hide HoldingBefore, InOrder;
        var k := LeastHolding(todo);
        var table := if k in positions then positions[k].qty else 0;
        if table != SharesIn(r, k) {
          InOrderJoins(breaks, [PositionMismatch(k, table, SharesIn(r, k))]);
          breaks := breaks + [PositionMismatch(k, table, SharesIn(r, k))];
        }
        todo := todo - {k};
      }
    }

    method OrderBreaks(r: Replay) returns (breaks: seq<Finding>)
      ensures forall f :: f in breaks <==> f.OrderMismatch? && OrderDiffers(State(), r, f.order)
      ensures InOrder(breaks)
    {
      breaks := [];
      var ids := (set i | 0 <= i < |orders| && orders[i].filled) + r.fills.Keys;
      var todo := ids;
      while todo != {}
        invariant todo <= ids
        invariant forall f :: f in breaks <==> f.OrderMismatch? && f.order in ids && f.order !in todo && OrderDiffers(State(), r, f.order)
        invariant forall i, k :: i in ids && i !in todo && k in todo ==> i < k
        invariant InOrder(breaks)
        decreases todo
      {
        hide InOrder;
        var i := LeastKey(todo);
        if !(i < |orders| && orders[i].filled && i in r.fills && Agrees(orders[i], r.fills[i])) {
          InOrderJoins(breaks, [OrderMismatch(i)]);
          breaks := breaks + [OrderMismatch(i)];
        }
        todo := todo - {i};
      }
    }

    /** Everything in which the tables differ from the journal, each once and in order, or the one place where the
        journal breaks; and nothing exactly when the tables are the journal. */
    method Integrity() returns (breaks: seq<Finding>)
      ensures forall f :: f in breaks <==> IsFinding(State(), rules, f)
      ensures InOrder(breaks)
      ensures breaks == [] <==> Agreement(State(), rules)
    {
      hide Agreement, InOrder, ReplayAll, OrderDiffers;
      AuditIsExact(State(), rules);
      NoneInOrder();
      var broken, r := ReplayJournal();
      if broken.Some? {
        breaks := [ChainBroken(broken.value)];
        InOrderJoins([], breaks);
        assert [] + breaks == breaks;
      } else {
        var cash := CashBreaks(r);
        var shares := PositionBreaks(r);
        var filled := OrderBreaks(r);
        InOrderJoins(cash, shares);
        InOrderJoins(cash + shares, filled);
        breaks := cash + shares + filled;
      }
      assert breaks != [] ==> breaks[0] in breaks;
    }
  }

  // ---- The order of findings ----

  lemma NoneInOrder()
    ensures InOrder([])
  {}

  lemma InOrderJoins(fs: seq<Finding>, gs: seq<Finding>)
    requires InOrder(fs) && (InOrder(gs) || |gs| == 1) && forall f, g :: f in fs && g in gs ==> Precedes(f, g)
    ensures InOrder(fs + gs)
  {
    hide Precedes;
    var all := fs + gs;
    forall i, j | 0 <= i < j < |all|
      ensures Precedes(all[i], all[j])
    {
      assert i < |fs| ==> fs[i] in fs;
      assert j >= |fs| ==> gs[j - |fs|] in gs;
    }
  }

  lemma {:induction false} LessIsTotal(a: string, b: string)
    ensures a == b || Less(a, b) || Less(b, a)
  {
    if a != [] && b != [] && a[0] == b[0] {
      LessIsTotal(a[1..], b[1..]);
      assert a == [a[0]] + a[1..] && b == [b[0]] + b[1..];
    }
  }

  lemma {:induction false} LessIsTransitive(a: string, b: string, c: string)
    requires Less(a, b) && Less(b, c)
    ensures Less(a, c)
  {
    if a != [] && a[0] == b[0] && b[0] == c[0] {
      LessIsTransitive(a[1..], b[1..], c[1..]);
    }
  }

  lemma HoldingsCompare(h: Holding, k: Holding)
    ensures h == k || HoldingBefore(h, k) || HoldingBefore(k, h)
  {
    LessIsTotal(h.1, k.1);
  }

  lemma HoldingsFollow(h: Holding, k: Holding, l: Holding)
    requires HoldingBefore(h, k) && HoldingBefore(k, l)
    ensures HoldingBefore(h, l)
  {
    if h.0 == k.0 == l.0 {
      LessIsTransitive(h.1, k.1, l.1);
    }
  }

  method LeastHolding(keys: set<Holding>) returns (least: Holding)
    requires keys != {}
    ensures least in keys && forall k :: k in keys ==> k == least || HoldingBefore(least, k)
  {
    hide HoldingBefore;
    least :| least in keys;
    var todo := keys - {least};
    while todo != {}
      invariant least in keys - todo && todo <= keys
      invariant forall k :: k in keys - todo ==> k == least || HoldingBefore(least, k)
      decreases todo
    {
      var k :| k in todo;
      HoldingsCompare(least, k);
      if HoldingBefore(k, least) {
        forall l | l in keys - todo && l != least
          ensures HoldingBefore(k, l)
        {
          HoldingsFollow(k, least, l);
        }
        least := k;
      }
      todo := todo - {k};
    }
  }
}
