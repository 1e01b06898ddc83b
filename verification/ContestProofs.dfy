/** The contest's books audit themselves: honest books pass, a passing audit means the tables are the journal,
    and tampering with the journal shows. */
module ContestProofs {
  import opened Wrappers
  import opened ContestBook
  import opened Spelling

  // ---- Honest books ----

  ghost predicate ChainOk(journal: seq<Row>, rules: Rules) {
    forall i :: 0 <= i < |journal| ==> Linked(journal, i, rules.genesis, rules.chain)
  }

  ghost predicate CashAgrees(b: Books, r: Replay) {
    && (forall p :: p in b.accounts ==> b.accounts[p] == CashIn(r, p))
    && r.cash.Keys <= b.accounts.Keys
    && (forall p: nat :: p in b.accounts <==> p < |b.nicknames|)
  }

  ghost predicate SharesAgree(b: Books, r: Replay) {
    forall k :: HeldOf(b, k).qty == SharesIn(r, k)
  }

  ghost predicate OrdersAgree(b: Books, r: Replay) {
    forall i: nat :: (FilledOrder(b, i) <==> i in r.fills) && (i in r.fills ==> FilledOrder(b, i) && Agrees(b.orders[i], r.fills[i]))
  }

  ghost predicate Honest(b: Books, rules: Rules) {
    var r := ReplayAll(b.journal);
    ChainOk(b.journal, rules) && CashAgrees(b, r) && SharesAgree(b, r) && OrdersAgree(b, r)
  }

  lemma JournalGrows(b: Books, rules: Rules, ts: string, pid: nat, d: Detail)
    ensures var c := Journaled(b, rules, ts, pid, d);
            && ReplayAll(c.journal) == Replayed(ReplayAll(b.journal), Content(ts, pid, d))
            && (ChainOk(b.journal, rules) ==> ChainOk(c.journal, rules))
  {
    var c := Journaled(b, rules, ts, pid, d);
    assert c.journal[..|b.journal|] == b.journal;
    if ChainOk(b.journal, rules) {
      forall i | 0 <= i < |c.journal|
        ensures Linked(c.journal, i, rules.genesis, rules.chain)
      {
        if i < |b.journal| {
          assert Linked(b.journal, i, rules.genesis, rules.chain);
        }
      }
    }
  }

  lemma SameShares(b: Books, c: Books, r: Replay, s: Replay)
    requires SharesAgree(b, r) && c.positions == b.positions && s.shares == r.shares
    ensures SharesAgree(c, s)
  {
    forall k
      ensures HeldOf(c, k).qty == SharesIn(s, k)
    {
      assert HeldOf(b, k).qty == SharesIn(r, k);
    }
  }

  lemma SameOrders(b: Books, c: Books, r: Replay, s: Replay)
    requires OrdersAgree(b, r) && s.fills == r.fills && |b.orders| <= |c.orders|
    requires forall i :: 0 <= i < |b.orders| ==> c.orders[i] == b.orders[i]
    requires forall i :: |b.orders| <= i < |c.orders| ==> !c.orders[i].filled
    ensures OrdersAgree(c, s)
  {
    forall i: nat
      ensures (FilledOrder(c, i) <==> i in s.fills) && (i in s.fills ==> FilledOrder(c, i) && Agrees(c.orders[i], s.fills[i]))
    {
      assert FilledOrder(b, i) <==> i in r.fills;
    }
  }

  lemma SignUpKeeps(b: Books, rules: Rules, code: string, nickname: string, ts: string)
    requires Honest(b, rules)
    ensures Honest(Step(b, rules, SignUp(code, nickname, ts)), rules)
  {
    hide ChainOk, SharesAgree, OrdersAgree, CashAgrees, ReplayAll, Replayed;
    if SignedUp(b, rules, code, nickname, ts).Ok? {
      var pid, r := |b.nicknames|, ReplayAll(b.journal);
      var a := b.(nicknames := b.nicknames + [nickname], invites := b.invites[code := Some(pid)],
                  accounts := b.accounts[pid := rules.initialCash]);
      JournalGrows(a, rules, ts, pid, Deposit(rules.initialCash));
      var c := Journaled(a, rules, ts, pid, Deposit(rules.initialCash));
      DepositAgrees(b, c, rules, r, ts);
      SameShares(b, c, r, ReplayAll(c.journal));
      SameOrders(b, c, r, ReplayAll(c.journal));
    }
  }

  lemma DepositAgrees(b: Books, c: Books, rules: Rules, r: Replay, ts: string)
    requires CashAgrees(b, r)
    requires var pid := |b.nicknames|;
             |c.nicknames| == pid + 1 && c.accounts == b.accounts[pid := rules.initialCash]
    ensures var s := Replayed(r, Content(ts, |b.nicknames|, Deposit(rules.initialCash)));
            CashAgrees(c, s) && s.shares == r.shares && s.fills == r.fills
  {
    var pid := |b.nicknames|;
    assert pid !in b.accounts && pid !in r.cash;
  }

  lemma SettleKeeps(b: Books, rules: Rules, q: Request, ts: string)
    requires Honest(b, rules) && CanSettle(b, q)
    ensures Honest(Settled(b, rules, q, ts), rules)
  {
    hide ChainOk, CashAgrees, SharesAgree, OrdersAgree, ReplayAll, Replayed, Moved, FillOf, Journaled, CanSettle;
    var r := ReplayAll(b.journal);
    MovedTables(b, rules, q, r, ts);
    MovedJournal(b, rules, q);
    JournalGrows(Moved(b, rules, q), rules, ts, q.pid, FillOf(b, rules, q));
    JournalTables(Moved(b, rules, q), rules, ts, q.pid, FillOf(b, rules, q), Replayed(r, Content(ts, q.pid, FillOf(b, rules, q))));
  }

  lemma MovedJournal(b: Books, rules: Rules, q: Request)
    requires CanSettle(b, q)
    ensures Moved(b, rules, q).journal == b.journal
  {}

  lemma MovedTables(b: Books, rules: Rules, q: Request, r: Replay, ts: string)
    requires CanSettle(b, q) && CashAgrees(b, r) && SharesAgree(b, r) && OrdersAgree(b, r)
    ensures var a, s := Moved(b, rules, q), Replayed(r, Content(ts, q.pid, FillOf(b, rules, q)));
            CashAgrees(a, s) && SharesAgree(a, s) && OrdersAgree(a, s)
  {
    hide CashAgrees, SharesAgree, OrdersAgree, Fee, Tax, CashDelta, Replayed, NewPosition;
    var a, c := Moved(b, rules, q), Content(ts, q.pid, FillOf(b, rules, q));
    var n := NewPosition(rules, q, HeldOf(b, (q.pid, q.symbol)));
    NewQuantity(rules, q, HeldOf(b, (q.pid, q.symbol)));
    SettledCash(b, r, a, c);
    SettledShares(b, r, a, c, n);
    SettledOrders(b, r, a, c, OrderOf(rules, q, true));
  }

  lemma NewQuantity(rules: Rules, q: Request, held: Position)
    requires q.side == Sell ==> held.qty > 0
    ensures NewPosition(rules, q, held).qty == held.qty + (if q.side == Buy then q.qty else -q.qty)
  {}

  /** Writing a journal row leaves the tables alone. */
  lemma JournalTables(a: Books, rules: Rules, ts: string, pid: nat, d: Detail, r: Replay)
    ensures var c := Journaled(a, rules, ts, pid, d);
            && (CashAgrees(a, r) ==> CashAgrees(c, r))
            && (SharesAgree(a, r) ==> SharesAgree(c, r))
            && (OrdersAgree(a, r) ==> OrdersAgree(c, r))
  {
    var c := Journaled(a, rules, ts, pid, d);
    if SharesAgree(a, r) {
      SameShares(a, c, r, r);
    }
    if OrdersAgree(a, r) {
      SameOrders(a, c, r, r);
    }
  }

  lemma SettledCash(b: Books, r: Replay, a: Books, c: Content)
    requires CashAgrees(b, r) && c.detail.Fill? && c.pid in b.accounts && a.nicknames == b.nicknames
    requires a.accounts == b.accounts[c.pid := b.accounts[c.pid] + c.detail.cashDelta]
    ensures CashAgrees(a, Replayed(r, c))
  {}

  lemma SettledShares(b: Books, r: Replay, a: Books, c: Content, n: Position)
    requires SharesAgree(b, r) && c.detail.Fill? && a.positions == b.positions[(c.pid, c.detail.symbol) := n]
    requires n.qty == HeldOf(b, (c.pid, c.detail.symbol)).qty + (if c.detail.side == Buy then c.detail.qty else -c.detail.qty)
    ensures SharesAgree(a, Replayed(r, c))
  {
    forall k
      ensures HeldOf(a, k).qty == SharesIn(Replayed(r, c), k)
    {
      assert HeldOf(b, k).qty == SharesIn(r, k);
    }
  }

  lemma SettledOrders(b: Books, r: Replay, a: Books, c: Content, o: Order)
    requires OrdersAgree(b, r) && c.detail.Fill? && c.detail.order == |b.orders| && a.orders == b.orders + [o]
    requires o.filled && Agrees(o, c.detail)
    ensures OrdersAgree(a, Replayed(r, c))
  {
    var s := Replayed(r, c);
    forall i: nat
      ensures (FilledOrder(a, i) <==> i in s.fills) && (i in s.fills ==> FilledOrder(a, i) && Agrees(a.orders[i], s.fills[i]))
    {
      assert FilledOrder(b, i) <==> i in r.fills;
    }
  }

  lemma TradeKeeps(b: Books, rules: Rules, q: Request, ts: string)
    requires Honest(b, rules)
    ensures Honest(Step(b, rules, Trade(q, ts)), rules)
  {
    hide ChainOk, Fee, Tax, Settled;
    if FindOrder(b.orders, q.pid, q.clientId) == None && q.pid in b.accounts && q.qty > 0 {
      if Rejected(b, rules, q) {
        var c, r := b.(orders := b.orders + [OrderOf(rules, q, false)]), ReplayAll(b.journal);
        SameShares(b, c, r, r);
        SameOrders(b, c, r, r);
      } else {
        SettleKeeps(b, rules, q, ts);
      }
    }
  }

  lemma StepKeeps(b: Books, rules: Rules, e: Event)
    requires Honest(b, rules)
    ensures Honest(Step(b, rules, e), rules)
  {
    match e
    case Invite(codes) =>
      var r := ReplayAll(b.journal);
      SameShares(b, Invited(b, codes), r, r);
      SameOrders(b, Invited(b, codes), r, r);
    case SignUp(code, nickname, ts) =>
      hide Honest;
      SignUpKeeps(b, rules, code, nickname, ts);
    case Trade(q, ts) =>
      hide Honest;
      TradeKeeps(b, rules, q, ts);
  }

  lemma {:induction false} RunKeeps(rules: Rules, es: seq<Event>)
    ensures Honest(Run(rules, es), rules)
    decreases |es|
  {
    hide Honest, Step;
    if es == [] {
      EmptyHonest(rules);
    } else {
      RunKeeps(rules, es[..|es| - 1]);
      StepKeeps(Run(rules, es[..|es| - 1]), rules, es[|es| - 1]);
    }
  }

  lemma EmptyHonest(rules: Rules)
    ensures Honest(EMPTY, rules)
  {}

  /** The chain is unbroken, and every account, every position and every filled order is what the journal says. */
  ghost predicate Agreement(b: Books, rules: Rules) {
    var r := ReplayAll(b.journal);
    && ChainOk(b.journal, rules)
    && (forall p :: p in b.accounts ==> b.accounts[p] == CashIn(r, p))
    && SharesAgree(b, r)
    && OrdersAgree(b, r)
  }

  /** The audit of books reached through invitations, sign-ups and orders finds nothing. */
  lemma HonestBooksPass(rules: Rules, es: seq<Event>, f: Finding)
    ensures !IsFinding(Run(rules, es), rules, f)
  {
    RunKeeps(rules, es);
    assert Agreement(Run(rules, es), rules) by { hide Run, ReplayAll; }
    NoFindings(Run(rules, es), rules, f);
  }

  lemma NoFindings(b: Books, rules: Rules, f: Finding)
    requires Agreement(b, rules)
    ensures !IsFinding(b, rules, f)
  {
    hide ReplayAll, Agrees;
    var broken := FirstBroken(b.journal, 0, rules.genesis, rules.chain);
    assert broken == None;
    var r := ReplayAll(b.journal);
    match f
    case PositionMismatch(k, _, _) => assert HeldOf(b, k).qty == SharesIn(r, k);
    case OrderMismatch(i) => assert FilledOrder(b, i) <==> i in r.fills;
    case _ =>
  }

  /** For any books at all, however they came about: an audit finds nothing exactly when the tables are the journal. */
  lemma AuditIsExact(b: Books, rules: Rules)
    ensures (forall f :: !IsFinding(b, rules, f)) <==> Agreement(b, rules)
  {
    if forall f :: !IsFinding(b, rules, f) {
      PassingMeansAgreement(b, rules);
    }
    if Agreement(b, rules) {
      forall f
        ensures !IsFinding(b, rules, f)
      {
        NoFindings(b, rules, f);
      }
    }
  }

  lemma PassingMeansAgreement(b: Books, rules: Rules)
    requires forall f :: !IsFinding(b, rules, f)
    ensures Agreement(b, rules)
  {
    hide ReplayAll, Agrees;
    var broken := FirstBroken(b.journal, 0, rules.genesis, rules.chain);
    assert !IsFinding(b, rules, ChainBroken(if broken.Some? then broken.value else 0));
    var r := ReplayAll(b.journal);
    forall p | p in b.accounts
      ensures b.accounts[p] == CashIn(r, p)
    {
      assert !IsFinding(b, rules, CashMismatch(p, b.accounts[p], CashIn(r, p)));
    }
    forall k
      ensures HeldOf(b, k).qty == SharesIn(r, k)
    {
      assert !IsFinding(b, rules, PositionMismatch(k, HeldOf(b, k).qty, SharesIn(r, k)));
    }
    forall i: nat
      ensures (FilledOrder(b, i) <==> i in r.fills) && (i in r.fills ==> FilledOrder(b, i) && Agrees(b.orders[i], r.fills[i]))
    {
      assert !IsFinding(b, rules, OrderMismatch(i));
    }
  }

  // ---- Tampering ----

  ghost predicate Injective(chain: Hasher) {
    forall p, c, q, d :: chain(p, c) == chain(q, d) ==> p == q && c == d
  }

  /** There are such chains: spelling the row out is one. */
  lemma SpellingIsInjective()
    ensures Injective(Spelled)
  {
    forall p, c, q, d | Spelled(p, c) == Spelled(q, d)
      ensures p == q && c == d
    {
      SpelledApart(p, c, q, d);
    }
  }

  /** Rewriting the content of one stored row, and not its hash, is always reported, at that row. */
  lemma EditedRowIsReported(b: Books, rules: Rules, i: nat, c: Content)
    requires Injective(rules.chain) && ChainOk(b.journal, rules) && i < |b.journal|
    ensures var edited := b.(journal := b.journal[i := b.journal[i].(content := c)]);
            IsFinding(edited, rules, ChainBroken(i)) <==> c != b.journal[i].content
  {
    var j := b.journal[i := b.journal[i].(content := c)];
    assert Linked(b.journal, i, rules.genesis, rules.chain);
    assert Linked(j, i, rules.genesis, rules.chain) <==> c == b.journal[i].content;
    forall k | 0 <= k < |j| && k != i
      ensures Linked(j, k, rules.genesis, rules.chain)
    {
      assert Linked(b.journal, k, rules.genesis, rules.chain);
    }
  }

  /** The last hash commits to the whole journal: two unbroken journals of one length that end in the same hash
      are the same, row for row. */
  lemma {:induction false} TipCommits(j: seq<Row>, k: seq<Row>, rules: Rules)
    requires Injective(rules.chain) && ChainOk(j, rules) && ChainOk(k, rules)
    requires |j| == |k| && Tip(j, rules.genesis) == Tip(k, rules.genesis)
    ensures j == k
    decreases |j|
  {
    if j == [] {
    } else {
      var n := |j| - 1;
      assert Linked(j, n, rules.genesis, rules.chain) && Linked(k, n, rules.genesis, rules.chain);
      ChainPrefix(j, n, rules);
      ChainPrefix(k, n, rules);
      TipCommits(j[..n], k[..n], rules);
      assert j == j[..n] + [j[n]] && k == k[..n] + [k[n]];
    }
  }

  lemma ChainPrefix(j: seq<Row>, n: nat, rules: Rules)
    requires ChainOk(j, rules) && n <= |j|
    ensures ChainOk(j[..n], rules)
  {
    forall i | 0 <= i < n
      ensures Linked(j[..n], i, rules.genesis, rules.chain)
    {
      assert Linked(j, i, rules.genesis, rules.chain);
    }
  }

  // ---- A journal cut short ----

  /** How rows come about: a participant's first row is the only deposit, of the starting cash, and each filled
      order has one row. */
  ghost predicate Orderly(journal: seq<Row>, rules: Rules) {
    && (forall i :: 0 <= i < |journal| && journal[i].content.detail.Deposit? ==>
          && journal[i].content.detail.amount == rules.initialCash
          && forall j :: 0 <= j < i ==> journal[j].content.pid != journal[i].content.pid)
    && (forall i, j :: 0 <= j < i < |journal| && journal[i].content.detail.Fill? && journal[j].content.detail.Fill? ==>
          journal[i].content.detail.order != journal[j].content.detail.order)
  }

  ghost predicate Known(b: Books) {
    forall i :: 0 <= i < |b.journal| ==>
      && b.journal[i].content.pid < |b.nicknames|
      && (b.journal[i].content.detail.Fill? ==> b.journal[i].content.detail.order < |b.orders|)
  }

  ghost predicate AccountsKnown(b: Books) { forall p: nat :: p in b.accounts <==> p < |b.nicknames| }

  lemma {:induction false} RunIsOrderly(rules: Rules, es: seq<Event>)
    ensures var b := Run(rules, es); Orderly(b.journal, rules) && Known(b) && AccountsKnown(b)
    decreases |es|
  {
    if es == [] {
    } else {
      RunIsOrderly(rules, es[..|es| - 1]);
      var b, e := Run(rules, es[..|es| - 1]), es[|es| - 1];
      hide Rejected, NewPosition, CashDelta, Fee, Tax, Run;
      StepIsOrderly(b, rules, e);
    }
  }

  lemma StepIsOrderly(b: Books, rules: Rules, e: Event)
    requires Orderly(b.journal, rules) && Known(b) && AccountsKnown(b)
    ensures var c := Step(b, rules, e); Orderly(c.journal, rules) && Known(c) && AccountsKnown(c)
  {
    hide Rejected, NewPosition, CashDelta, Fee, Tax, HeldOf, Orderly, Known;
    var c := Step(b, rules, e);
    assert c.journal != b.journal ==> |c.journal| == |b.journal| + 1 && c.journal[..|b.journal|] == b.journal;
    match e
    case Invite(_) => StaysOrderly(b, c, rules);
    case SignUp(_, _, _) =>
      if c != b {
        StaysOrderly(b, c, rules);
      }
    case Trade(_, _) =>
      if c != b {
        StaysOrderly(b, c, rules);
      }
  }

  /** A row that is the participant's first or names the newest order leaves the journal orderly. */
  lemma StaysOrderly(b: Books, c: Books, rules: Rules)
    requires Orderly(b.journal, rules) && Known(b) && AccountsKnown(b)
    requires |b.orders| <= |c.orders| && |b.nicknames| <= |c.nicknames|
    requires forall p: nat :: p in c.accounts <==> p in b.accounts || |b.nicknames| <= p < |c.nicknames|
    requires c.journal != b.journal ==>
             && |c.journal| == |b.journal| + 1 && c.journal[..|b.journal|] == b.journal
             && var row := c.journal[|b.journal|].content;
             && row.pid < |c.nicknames|
             && (row.detail.Deposit? ==> row.detail.amount == rules.initialCash && row.pid == |b.nicknames|)
             && (row.detail.Fill? ==> row.detail.order == |b.orders| < |c.orders|)
    ensures Orderly(c.journal, rules) && Known(c) && AccountsKnown(c)
  {
    assert forall i :: 0 <= i < |b.journal| ==> c.journal[i] == b.journal[i];
  }

  lemma {:induction false} AbsentFromReplay(journal: seq<Row>, pid: nat, order: nat)
    ensures (forall i :: 0 <= i < |journal| ==> journal[i].content.pid != pid) ==> CashIn(ReplayAll(journal), pid) == 0
    ensures (forall i :: 0 <= i < |journal| && journal[i].content.detail.Fill? ==> journal[i].content.detail.order != order) ==>
              order !in ReplayAll(journal).fills
    decreases |journal|
  {
    if journal == [] {
    } else {
      AbsentFromReplay(journal[..|journal| - 1], pid, order);
    }
  }

  lemma {:induction false} FillIsReplayed(journal: seq<Row>, i: nat)
    requires i < |journal| && journal[i].content.detail.Fill?
    ensures journal[i].content.detail.order in ReplayAll(journal).fills
    decreases |journal|
  {
    if i < |journal| - 1 {
      FillIsReplayed(journal[..|journal| - 1], i);
    }
  }

  /** A participant all of whose rows are deposits, the only one being row `i`. */
  lemma {:induction false} OnlyDeposit(journal: seq<Row>, rules: Rules, i: nat)
    requires Orderly(journal, rules) && i < |journal| && journal[i].content.detail.Deposit?
    requires forall j :: i < j < |journal| ==> journal[j].content.pid != journal[i].content.pid
    ensures CashIn(ReplayAll(journal), journal[i].content.pid) == rules.initialCash
    decreases |journal|
  {
    var front := journal[..|journal| - 1];
    if i < |journal| - 1 {
      assert Orderly(front, rules);
      OnlyDeposit(front, rules, i);
    } else {
      AbsentFromReplay(front, journal[i].content.pid, 0);
    }
  }

  /** A row that says nothing about money: the deposit of a starting cash of zero. */
  predicate IsBlank(row: Row) { row.content.detail == Deposit(0) }

  /** Rows removed from the end of the journal of honest books leave a good chain; the audit reports it exactly when
      one of them was a fill or a deposit of anything. */
  lemma CutJournalIsReported(rules: Rules, es: seq<Event>, n: nat)
    requires n <= |Run(rules, es).journal|
    ensures var b := Run(rules, es);
            (exists f :: IsFinding(b.(journal := b.journal[..n]), rules, f)) <==>
            exists i :: n <= i < |b.journal| && !IsBlank(b.journal[i])
  {
    hide Run;
    var b := Run(rules, es);
    RunKeeps(rules, es);
    RunIsOrderly(rules, es);
    ChainPrefix(b.journal, n, rules);
    if i :| n <= i < |b.journal| && b.journal[i].content.detail.Fill? {
      CutFill(b, rules, n, i);
    } else if i :| n <= i < |b.journal| && !IsBlank(b.journal[i]) {
      assert n < |b.journal| && rules.initialCash != 0;
      CutDeposit(b, rules, n);
    } else {
      BlankCut(b, rules, n);
      hide IsFinding, Agreement;
      AuditIsExact(b.(journal := b.journal[..n]), rules);
    }
  }

  lemma BlankCut(b: Books, rules: Rules, n: nat)
    requires Honest(b, rules) && n <= |b.journal| && forall i :: n <= i < |b.journal| ==> IsBlank(b.journal[i])
    ensures Agreement(b.(journal := b.journal[..n]), rules)
  {
    var cut := b.(journal := b.journal[..n]);
    var r, s := ReplayAll(b.journal), ReplayAll(cut.journal);
    ChainPrefix(b.journal, n, rules);
    BlankRows(b.journal, n);
    hide ReplayAll, Agrees;
    assert forall k :: HeldOf(b, k).qty == SharesIn(r, k);
    SameShares(b, cut, r, s);
    SameOrders(b, cut, r, s);
  }

  lemma {:induction false} BlankRows(journal: seq<Row>, n: nat)
    requires n <= |journal| && forall i :: n <= i < |journal| ==> IsBlank(journal[i])
    ensures var r, s := ReplayAll(journal), ReplayAll(journal[..n]);
            && (forall p :: CashIn(r, p) == CashIn(s, p)) && r.shares == s.shares && r.fills == s.fills
    decreases |journal|
  {
    if n == |journal| {
      assert journal[..n] == journal;
    } else {
      var front := journal[..|journal| - 1];
      assert front[..n] == journal[..n];
      BlankRows(front, n);
    }
  }

  lemma CutFill(b: Books, rules: Rules, n: nat, i: nat)
    requires Honest(b, rules) && Orderly(b.journal, rules) && n <= i < |b.journal| && b.journal[i].content.detail.Fill?
    requires ChainOk(b.journal[..n], rules)
    ensures IsFinding(b.(journal := b.journal[..n]), rules, OrderMismatch(b.journal[i].content.detail.order))
  {
    hide Agrees;
    var order := b.journal[i].content.detail.order;
    FillIsReplayed(b.journal, i);
    AbsentFromReplay(b.journal[..n], 0, order);
    assert FilledOrder(b, order);
    var cut := b.(journal := b.journal[..n]);
    assert FirstBroken(cut.journal, 0, rules.genesis, rules.chain) == None;
    hide ReplayAll;
    assert OrderDiffers(cut, ReplayAll(cut.journal), order);
  }

  lemma CutDeposit(b: Books, rules: Rules, n: nat)
    requires Honest(b, rules) && Orderly(b.journal, rules) && Known(b) && n < |b.journal| && rules.initialCash != 0
    requires forall i :: n <= i < |b.journal| ==> b.journal[i].content.detail.Deposit?
    requires ChainOk(b.journal[..n], rules)
    ensures IsFinding(b.(journal := b.journal[..n]), rules, CashMismatch(b.journal[n].content.pid, rules.initialCash, 0))
  {
    hide Agrees;
    var pid := b.journal[n].content.pid;
    OnlyDeposit(b.journal, rules, n);
    AbsentFromReplay(b.journal[..n], pid, 0);
    assert FirstBroken(b.journal[..n], 0, rules.genesis, rules.chain) == None;
    hide ReplayAll;
  }

  // ---- Money ----

  /** No cash that is not there is spent and no share that is not held is sold. */
  ghost predicate Solvent(b: Books) {
    && (forall p :: p in b.accounts ==> b.accounts[p] >= 0)
    && (forall k :: k in b.positions ==> b.positions[k].qty >= 0 && b.positions[k].cost >= 0)
  }

  lemma SaleCosts(rules: Rules, amount: nat)
    requires rules.feePpm >= 0 && rules.taxPpm >= 0 && rules.feePpm + rules.taxPpm <= MILLION
    ensures 0 <= Fee(rules, amount) && 0 <= Tax(rules, Sell, amount) && Fee(rules, amount) + Tax(rules, Sell, amount) <= amount
  {
    var f, t := amount * rules.feePpm, amount * rules.taxPpm;
    assert f >= 0 && t >= 0;
    assert f + t == amount * (rules.feePpm + rules.taxPpm);
    Scales(amount, rules.feePpm + rules.taxPpm, MILLION);
  }

  lemma Scales(a: nat, x: int, y: int)
    requires x <= y
    ensures a * x <= a * y
  {}

  /** The cost left after a sale is the held shares' proportional part, rounded up to a whole unit. */
  lemma CostIsProportional(cost: nat, qty: nat, held: nat)
    requires 0 < qty <= held
    ensures var left := cost - cost * qty / held;
            0 <= left <= cost && 0 <= left * held - cost * (held - qty) < held
  {
    var part := cost * qty / held;
    assert 0 <= cost * qty;
    Scales(cost, qty, held);
    assert part * held <= cost * qty < part * held + held;
    Bounded(part, cost, held);
    assert (cost - part) * held == cost * held - part * held;
    assert cost * (held - qty) == cost * held - cost * qty;
  }

  lemma Bounded(part: int, cost: nat, held: nat)
    requires held > 0 && part * held <= cost * held && part * held + held > 0
    ensures 0 <= part <= cost
  {
    if part <= -1 {
      Scales(held, part, -1);
    }
    if part >= cost + 1 {
      Scales(held, cost + 1, part);
    }
  }

  lemma SettleStaysSolvent(b: Books, rules: Rules, q: Request, ts: string)
    requires Solvent(b) && rules.feePpm >= 0 && rules.taxPpm >= 0 && rules.feePpm + rules.taxPpm <= MILLION
    requires q.pid in b.accounts && q.qty > 0 && !Rejected(b, rules, q)
    ensures Solvent(Settled(b, rules, q, ts))
  {
    var amount := q.qty * q.price;
    assert amount >= 0;
    SaleCosts(rules, amount);
    var held := HeldOf(b, (q.pid, q.symbol));
    if q.side == Sell {
      CostIsProportional(held.cost, q.qty, held.qty);
    }
    hide Fee, Tax;
  }

  lemma {:induction false} RunStaysSolvent(rules: Rules, es: seq<Event>)
    requires rules.initialCash >= 0 && rules.feePpm >= 0 && rules.taxPpm >= 0 && rules.feePpm + rules.taxPpm <= MILLION
    ensures Solvent(Run(rules, es))
    decreases |es|
  {
    if es == [] {
    } else {
      RunStaysSolvent(rules, es[..|es| - 1]);
      var b, e := Run(rules, es[..|es| - 1]), es[|es| - 1];
      hide Run, Settled, Rejected, Fee, Tax;
      if e.Trade? && e.request.pid in b.accounts && e.request.qty > 0 && !Rejected(b, rules, e.request) {
        SettleStaysSolvent(b, rules, e.request, e.ts);
      }
    }
  }

  /** A repeated order, however much later and whatever it asks for, returns the first one and changes nothing. */
  lemma OrderIsIdempotent(rules: Rules, es: seq<Event>, more: seq<Event>, q: Request, q': Request, ts: string, ts': string)
    requires q'.pid == q.pid && q'.clientId == q.clientId
    requires Placed(Run(rules, es), rules, q, ts).Ok?
    ensures var id := Placed(Run(rules, es), rules, q, ts).value.1;
            var c := Run(rules, es + [Trade(q, ts)] + more);
            Placed(c, rules, q', ts') == Result<(Books, nat, bool), ContestError>.Ok((c, id, false))
  {
    var b := Run(rules, es);
    var id := Placed(b, rules, q, ts).value.1;
    assert (es + [Trade(q, ts)])[..|es|] == es;
    var d := Run(rules, es + [Trade(q, ts)]);
    assert d == Step(b, rules, Trade(q, ts));
    FirstOrderFound(b, rules, q, ts);
    OrdersOnlyGrow(rules, es + [Trade(q, ts)], more);
    hide Run, Placed;
    FoundAgain(d.orders, Run(rules, es + [Trade(q, ts)] + more).orders, q.pid, q.clientId);
    PlacedAgain(Run(rules, es + [Trade(q, ts)] + more), rules, q', ts');
  }

  lemma PlacedAgain(b: Books, rules: Rules, q: Request, ts: string)
    requires FindOrder(b.orders, q.pid, q.clientId).Some?
    ensures Placed(b, rules, q, ts) == Ok((b, FindOrder(b.orders, q.pid, q.clientId).value, false))
  {}

  lemma FirstOrderFound(b: Books, rules: Rules, q: Request, ts: string)
    requires Placed(b, rules, q, ts).Ok?
    ensures FindOrder(Placed(b, rules, q, ts).value.0.orders, q.pid, q.clientId) == Some(Placed(b, rules, q, ts).value.1)
  {
    hide Fee, Tax, Rejected, NewPosition, CashDelta;
    var c := Placed(b, rules, q, ts).value.0;
    if FindOrder(b.orders, q.pid, q.clientId) == None {
      assert c.orders[..|b.orders|] == b.orders;
    }
  }

  lemma {:induction false} FoundAgain(os: seq<Order>, ps: seq<Order>, pid: nat, clientId: string)
    requires os <= ps && FindOrder(os, pid, clientId).Some?
    ensures FindOrder(ps, pid, clientId) == FindOrder(os, pid, clientId)
    decreases |ps|
  {
    if |ps| > |os| {
      FoundAgain(os, ps[..|ps| - 1], pid, clientId);
    } else {
      assert ps == os;
    }
  }

  lemma {:induction false} OrdersOnlyGrow(rules: Rules, es: seq<Event>, more: seq<Event>)
    ensures Run(rules, es).orders <= Run(rules, es + more).orders
    decreases |more|
  {
    if more == [] {
      assert es + more == es;
    } else {
      var front, e := more[..|more| - 1], more[|more| - 1];
      OrdersOnlyGrow(rules, es, front);
      assert (es + more)[..|es + more| - 1] == es + front;
      hide Rejected, NewPosition, CashDelta, Fee, Tax;
    }
  }
}
