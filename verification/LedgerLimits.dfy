/** A day with more orders than closing looks at: its oldest order stays open. */
module LedgerLimits {
  import opened Wrappers
  import opened OrderBook
  import opened LedgerProofs

  const DAY: Date := "20260901"

  /** Client ids that differ in length. */
  function Name(n: nat): (s: string)
    ensures |s| == n
  {
    seq(n, _ => 'x')
  }

  /** `n` orders on one day, each sent and accepted. */
  function Busy(n: nat): seq<Event> {
    if n == 0 then []
    else Busy(n - 1) + [Place(Draft(Name(n - 1), DAY, "S", Buy, 1, 1, 0), 0.0), SubmitResult(n - 1, Accepted, None)]
  }

  ghost predicate IsBusy(b: Book, n: nat) {
    && |b.orders| == n && b.closed == map[]
    && forall i :: 0 <= i < n ==> b.orders[i].date == DAY && b.orders[i].state == Accepted && |b.orders[i].clientId| == i
  }

  lemma OneMore(b: Book, n: nat)
    requires IsBusy(b, n)
    ensures IsBusy(Step(Step(b, Place(Draft(Name(n), DAY, "S", Buy, 1, 1, 0), 0.0)), SubmitResult(n, Accepted, None)), n + 1)
  {
    hide Name;
    var d := Draft(Name(n), DAY, "S", Buy, 1, 1, 0);
    assert FindClient(b.orders, d.clientId) == None;
    hide FindClient;
    var c := Step(b, Place(d, 0.0));
    assert c.orders == b.orders + [Order(d.clientId, DAY, "S", Buy, 1, 1, 1, PendingSubmit, None, 0, 0, 0.0)];
  }

  lemma {:induction false} RunsBusy(n: nat)
    ensures IsBusy(Run(EMPTY, Busy(n)), n)
  {
    hide IsBusy, Step, Name;
    if n == 0 {
      assert IsBusy(EMPTY, 0) by { NoneBusy(); }
    } else {
      RunsBusy(n - 1);
      var front, e, f := Busy(n - 1), Place(Draft(Name(n - 1), DAY, "S", Buy, 1, 1, 0), 0.0), SubmitResult(n - 1, Accepted, None);
      OneMore(Run(EMPTY, front), n - 1);
      assert (front + [e, f])[..|front| + 1] == front + [e] && (front + [e])[..|front|] == front;
    }
  }

  lemma NoneBusy()
    ensures IsBusy(EMPTY, 0)
  {}

  lemma {:induction false} CountOfDay(os: seq<Order>, i: nat)
    requires i <= |os| && forall j :: 0 <= j < |os| ==> os[j].date == DAY
    ensures DayCount(os, i, DAY) == |os| - i
    decreases |os| - i
  {
    if i < |os| {
      CountOfDay(os, i + 1);
    }
  }

  /** With more orders than closing looks at, the day is closed, its first order is still open, and a later report
      changes it. */
  lemma OldestOrderStaysOpen(n: nat, now: real) returns (more: seq<Event>)
    requires n > CLOSE_LIMIT
    ensures var b := Run(EMPTY, Busy(n) + [Close(DAY, 0, now)]);
            && DAY in b.closed && |b.orders| == n && b.orders[0].date == DAY && IsFillable(b.orders[0].state)
            && 0 < |Run(b, more).orders| && Run(b, more).orders[0] != b.orders[0]
  {
    RunsBusy(n);
    hide Busy, Run;
    var a, es := Run(EMPTY, Busy(n)), Busy(n) + [Close(DAY, 0, now)];
    CountOfDay(a.orders, 1);
    assert !InScope(a.orders, 0, DAY);
    hide InScope, DaySummary;
    assert !AnyUnresolved(a.orders, DAY);
    var b := CloseDay(a, DAY, 0, now).0;
    assert b.orders[0] == a.orders[0];
    LastStep(es);
    assert es[..|es| - 1] == Busy(n);
    assert Run(EMPTY, es) == b;
    RunKeeps(es);
    hide LedgerProofs.Ok, CloseDay;
    more := NotFinalCanChange(b, 0);
  }

  lemma LastStep(es: seq<Event>)
    requires es != []
    ensures Run(EMPTY, es) == Step(Run(EMPTY, es[..|es| - 1]), es[|es| - 1])
  {
    hide Step;
  }
}
