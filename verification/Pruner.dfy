/** The retention job: rows, progress records and the loops that check, delete and record. */
module Pruner {
  import opened Numbers
  import opened Wrappers
  import opened Retention
  import opened RetentionProofs

  datatype Fault = NoFault | DeleteFails | RecordFails

  /** What happens around one batch: rows that arrive just before it, and whether one of its writes fails. */
  datatype Round = Round(arrivals: Store, fault: Fault)

  ghost function Arrived(rounds: seq<Round>, t: Table): Rows {
    if rounds == [] then multiset{} else Arrived(rounds[..|rounds| - 1], t) + rounds[|rounds| - 1].arrivals.Of(t)
  }

  datatype PruneResult = PruneResult(rows: map<Table, nat>, budgetHit: bool, batches: nat, blocked: Option<Reason>)

  const NOTHING := PruneResult(map[], false, 0, None)

  /** Toward zero. */
  function Truncated(x: real): int { if x >= 0.0 then x.Floor else -((-x).Floor) }

  function CutoffUs(days: real, nowUs: int): int {
    Truncated(nowUs as real / 1_000_000.0 - days * 86400.0) * 1_000_000
  }

  /** The retention cutoff, or the end of the verified archive where that comes first. */
  function Limit(cutoff: int, floorUs: Option<int>): int {
    if floorUs.Some? then Min(cutoff, floorUs.value) else cutoff
  }

  datatype Outcome = Deletes(got: nat) | Fails | Stops(reason: Reason)

  datatype Ending = Done | OutOfBudget | Failed | Halted(reason: Reason)

  // ---- Both ways of running ----

  /** Without receipts, the cutoff alone decides. */
  ghost function LocalStep(s: State, e: Event): State {
    match e
    case Insert(t, rows) => s.(store := s.store.With(t, s.store.Of(t) + rows))
    case Batch(t, cutoff, picked, _) => if IsPick(s.store.Of(t), cutoff, picked) then Deleted(s, t, picked) else s
  }

  ghost function StepIn(remote: bool, s: State, docs: seq<Document>, digest: Digest, e: Event): State {
    if remote then Step(s, docs, digest, e) else LocalStep(s, e)
  }

  ghost function RunIn(remote: bool, s: State, docs: seq<Document>, digest: Digest, es: seq<Event>): State
    decreases |es|
  {
    if es == [] then s
    else StepIn(remote, RunIn(remote, s, docs, digest, es[..|es| - 1]), docs, digest, es[|es| - 1])
  }

  lemma RunInGrows(remote: bool, s: State, docs: seq<Document>, digest: Digest, es: seq<Event>, e: Event)
    ensures RunIn(remote, s, docs, digest, es + [e]) == StepIn(remote, RunIn(remote, s, docs, digest, es), docs, digest, e)
    ensures forall t :: Inserted(es + [e], t) == Inserted(es, t) + if e.Insert? && e.table == t then e.rows else multiset{}
  {
    hide StepIn;
    assert (es + [e])[..|es|] == es;
  }

  lemma {:induction false} RemoteRun(s: State, docs: seq<Document>, digest: Digest, es: seq<Event>)
    ensures RunIn(true, s, docs, digest, es) == Run(s, docs, digest, es)
    decreases |es|
  {
    if es == [] {
    } else {
      hide Step;
      RemoteRun(s, docs, digest, es[..|es| - 1]);
    }
  }

  /** With receipts required, a run of the job deletes only what is archived. */
  lemma RunInDeletesArchived(s: State, docs: seq<Document>, digest: Digest, es: seq<Event>, cutoff: int)
    requires Injective(digest) && ProgressOk(s, docs, digest) && GoneIsArchived(s, docs, digest, cutoff)
    requires CutoffsBelow(es, cutoff)
    ensures GoneIsArchived(RunIn(true, s, docs, digest, es), docs, digest, cutoff)
  {
    hide Injective, ProgressOk, GoneIsArchived, CutoffsBelow;
    RemoteRun(s, docs, digest, es);
    OnlyArchivedIsDeleted(s, docs, digest, es, cutoff);
  }

  lemma DeletedNothing(s: State, t: Table)
    ensures Deleted(s, t, multiset{}) == s
  {}

  lemma CoveredReasons(s: State, docs: seq<Document>, digest: Digest)
    ensures Floor(s.store) == None <==> RemoteCutoff(s.store, docs, s.progress, digest) == Blocked(NoSourceRows)
  {
    hide Common, Matches, Floor;
    if Floor(s.store).Some? && Floor(s.store).value in Common(docs) {
      CoveredMeans(s.store, docs, s.progress, digest, Floor(s.store).value, Common(docs));
    }
  }

  /** Why a batch is blocked, as the job reports it: missing receipts for a day that the archive was said to cover mean
      that the source's first day has changed. */
  ghost function ReportedReason(s: State, docs: seq<Document>, digest: Digest, floorUs: Option<int>): Option<Reason> {
    match RemoteCutoff(s.store, docs, s.progress, digest)
    case Allowed(_) => None
    case Blocked(reason) =>
      if reason == MissingRemoteCoverage && floorUs.Some? && Floor(s.store).Some? && Floor(s.store).value * 86_400_000_000 < floorUs.value
      then Some(SourceFloorChanged)
      else Some(reason)
  }

  lemma ReasonOfBatch(s: State, docs: seq<Document>, digest: Digest, floorUs: Option<int>)
    ensures var c, floor := RemoteCutoff(s.store, docs, s.progress, digest), Floor(s.store);
            c.Blocked? ==>
              && (c.reason == NoSourceRows <==> floor == None)
              && ReportedReason(s, docs, digest, floorUs) ==
                 Some(if c.reason == MissingRemoteCoverage && floorUs.Some? && floor.Some? && DayStart(floor.value) < floorUs.value
                      then SourceFloorChanged else c.reason)
  {
    CoveredReasons(s, docs, digest);
    hide Floor, RemoteCutoff;
  }

  /** How far a batch may go and on which day, or the reason it may not. */
  ghost predicate IsCutoff(s: State, docs: seq<Document>, digest: Digest, cutoff: int, floorUs: Option<int>, r: Result<(int, Option<int>), Reason>) {
    match BatchCutoff(s, docs, digest, cutoff)
    case None =>
      r.Err? && (r.error == NoSourceRows <==> Floor(s.store) == None) && ReportedReason(s, docs, digest, floorUs) == Some(r.error)
    case Some(us) => r == Ok((us, Floor(s.store))) && Floor(s.store).Some?
  }

  lemma CutoffIs(s: State, docs: seq<Document>, digest: Digest, cutoff: int, floorUs: Option<int>)
    ensures var c, floor := RemoteCutoff(s.store, docs, s.progress, digest), Floor(s.store);
            && (c.Blocked? ==>
                  IsCutoff(s, docs, digest, cutoff, floorUs,
                           Err(if c.reason == MissingRemoteCoverage && floorUs.Some? && floor.Some? && DayStart(floor.value) < floorUs.value
                               then SourceFloorChanged else c.reason)))
            && (c.Allowed? ==>
                  && floor.Some?
                  && IsCutoff(s, docs, digest, cutoff, floorUs, Ok((Min(Min(cutoff, c.us), DayStart(floor.value + 1)), floor))))
  {
    CoveredReasons(s, docs, digest);
    ReasonOfBatch(s, docs, digest, floorUs);
    hide Floor, Covered, ReportedReason, DayStart, Min;
  }

  lemma StepOfBatch(s: State, docs: seq<Document>, digest: Digest, remote: bool, t: Table, cutoff: int, picked: Rows,
                    fault: Fault, bc: int, day: Option<int>)
    requires if remote then BatchCutoff(s, docs, digest, cutoff) == Some(bc) && day == Floor(s.store) && day.Some?
             else bc == cutoff && day == None
    requires if fault == DeleteFails then picked == multiset{} else IsPick(s.store.Of(t), bc, picked)
    ensures var after := Deleted(s, t, picked);
            StepIn(remote, s, docs, digest, Batch(t, cutoff, picked, fault != RecordFails)) ==
              if day.Some? && picked != multiset{} && fault == NoFault then Recorded(after, digest, t, day.value) else after
  {
    hide IsPick, BatchCutoff, Floor;
    DeletedNothing(s, t);
    hide Deleted, Recorded;
  }

  lemma NothingRun(remote: bool, s: State, docs: seq<Document>, digest: Digest)
    ensures RunIn(remote, s, docs, digest, []) == s
    ensures forall u :: Inserted([], u) == multiset{}
    ensures forall c :: CutoffsBelow([], c)
  {}

  /** One round of arrivals and a batch, added to a run. */
  lemma RoundRuns(remote: bool, s: State, docs: seq<Document>, digest: Digest, trace: seq<Event>, before: State,
                  rounds: seq<Round>, start: nat, used: nat, event: Event, arrived: State, cutoff: int)
    requires start <= used < |rounds| && event.Batch? && event.cutoff <= cutoff && CutoffsBelow(trace, cutoff)
    requires before == RunIn(remote, s, docs, digest, trace)
    requires forall u :: Arrived(rounds[..start], u) + Inserted(trace, u) == Arrived(rounds[..used], u)
    requires var a := rounds[used].arrivals;
             arrived == before.(store := Store(before.store.trades + a.trades, before.store.bookTop + a.bookTop))
    ensures var a := rounds[used].arrivals;
            var now := trace + [Insert(Trades, a.trades), Insert(BookTop, a.bookTop), event];
            && RunIn(remote, s, docs, digest, now) == StepIn(remote, arrived, docs, digest, event)
            && RunIn(remote, s, docs, digest, now[..|now| - 1]) == arrived
            && CutoffsBelow(now, cutoff)
            && forall u :: Arrived(rounds[..start], u) + Inserted(now, u) == Arrived(rounds[..used + 1], u)
  {
    hide RunIn, Inserted;
    var a := rounds[used].arrivals;
    var x, y := Event.Insert(Trades, a.trades), Event.Insert(BookTop, a.bookTop);
    RunInGrows(remote, s, docs, digest, trace, x);
    RunInGrows(remote, s, docs, digest, trace + [x], y);
    RunInGrows(remote, s, docs, digest, trace + [x] + [y], event);
    assert trace + [x] + [y] + [event] == trace + [x, y, event];
    assert rounds[..used + 1][..used] == rounds[..used];
    InsertsArrive(remote, before, docs, digest, a);
    assert (trace + [x, y, event])[..|trace| + 2] == trace + [x] + [y];
    hide StepIn;
    forall u
      ensures Arrived(rounds[..start], u) + Inserted(trace + [x, y, event], u) == Arrived(rounds[..used + 1], u)
    {
      assert Inserted(trace + [x, y, event], u) == Inserted(trace, u) + a.Of(u);
    }
  }

  lemma InsertsArrive(remote: bool, s: State, docs: seq<Document>, digest: Digest, a: Store)
    ensures var mid := StepIn(remote, s, docs, digest, Insert(Trades, a.trades));
            StepIn(remote, mid, docs, digest, Insert(BookTop, a.bookTop)) ==
              s.(store := Store(s.store.trades + a.trades, s.store.bookTop + a.bookTop))
  {}

  lemma {:induction false} RunInJoins(remote: bool, s: State, docs: seq<Document>, digest: Digest, es: seq<Event>, fs: seq<Event>,
                                      cutoff: int)
    ensures RunIn(remote, s, docs, digest, es + fs) == RunIn(remote, RunIn(remote, s, docs, digest, es), docs, digest, fs)
    ensures CutoffsBelow(es, cutoff) && CutoffsBelow(fs, cutoff) ==> CutoffsBelow(es + fs, cutoff)
    decreases |fs|
  {
    if fs == [] {
      assert es + fs == es;
    } else {
      hide StepIn;
      RunInJoins(remote, s, docs, digest, es, fs[..|fs| - 1], cutoff);
      assert (es + fs)[..|es + fs| - 1] == es + fs[..|fs| - 1];
    }
  }

  /** Without receipts, still nothing is deleted that is not older than the limit. */
  lemma {:induction false} LocalRunKeepsRecent(s: State, docs: seq<Document>, digest: Digest, es: seq<Event>, cutoff: int, t: Table)
    requires CutoffsBelow(es, cutoff)
    ensures forall x :: x in RunIn(false, s, docs, digest, es).gone.Of(t) ==> x in s.gone.Of(t) || x.ts < cutoff
    decreases |es|
  {
    if es == [] {
    } else {
      LocalRunKeepsRecent(s, docs, digest, es[..|es| - 1], cutoff, t);
      var b, e := RunIn(false, s, docs, digest, es[..|es| - 1]), es[|es| - 1];
      hide RunIn;
      LocalStepKeepsRecent(b, e, t);
    }
  }

  lemma LocalStepKeepsRecent(s: State, e: Event, t: Table)
    ensures forall x :: x in LocalStep(s, e).gone.Of(t) ==> x in s.gone.Of(t) || (e.Batch? && x.ts < e.cutoff)
  {}

  lemma StepDeletesOld(remote: bool, s: State, docs: seq<Document>, digest: Digest, e: Event, t: Table, x: Row)
    requires StepIn(remote, s, docs, digest, e).gone.Of(t)[x] > s.gone.Of(t)[x]
    ensures e.Batch? && x.ts < e.cutoff
  {
    hide Floor, RemoteCutoff, Common;
  }

  /** With and without receipts, every row newly gone is older than the cutoffs used. */
  lemma {:induction false} RunDeletesOld(remote: bool, s: State, docs: seq<Document>, digest: Digest, es: seq<Event>, cutoff: int, t: Table, x: Row)
    requires CutoffsBelow(es, cutoff) && RunIn(remote, s, docs, digest, es).gone.Of(t)[x] > s.gone.Of(t)[x]
    ensures x.ts < cutoff
    decreases |es|
  {
    hide StepIn;
    if es == [] {
    } else {
      var front, e := RunIn(remote, s, docs, digest, es[..|es| - 1]), es[|es| - 1];
      if front.gone.Of(t)[x] > s.gone.Of(t)[x] {
        RunDeletesOld(remote, s, docs, digest, es[..|es| - 1], cutoff, t, x);
      } else {
        StepDeletesOld(remote, front, docs, digest, e, t, x);
      }
    }
  }

  const DAY_IN_US: real := 86_400_000_000.0
  const SECOND_IN_US: real := 1_000_000.0

  /** The cutoff in microseconds is the whole second at or just before so many days before now. */
  lemma CutoffInNumbers(days: real, nowUs: int)
    requires nowUs as real >= days * DAY_IN_US
    ensures var c := CutoffUs(days, nowUs) as real;
            c <= nowUs as real - days * DAY_IN_US < c + SECOND_IN_US
  {
    var y := nowUs as real / 1_000_000.0 - days * 86400.0;
    assert y * 1_000_000.0 == nowUs as real - days * DAY_IN_US;
    assert CutoffUs(days, nowUs) == y.Floor * 1_000_000;
  }

  /** Rows that arrive while the job is at work are not old. */
  ghost predicate ArriveRecent(rounds: seq<Round>, cutoff: int) {
    forall i, t, x :: 0 <= i < |rounds| && x in rounds[i].arrivals.Of(t) ==> x.ts >= cutoff
  }

  ghost predicate AllRecent(m: Rows, cutoff: int) {
    forall x :: x in m ==> x.ts >= cutoff
  }

  ghost predicate NoFaults(rounds: seq<Round>) {
    forall i :: 0 <= i < |rounds| ==> rounds[i].fault == NoFault
  }

  /** Older than so many days before now, and before the end of the verified archive where one is given. */
  predicate IsOld(x: Row, days: real, nowUs: int, floorUs: Option<int>) {
    x.ts as real < nowUs as real - days * 86_400_000_000.0 && (floorUs.Some? ==> x.ts < floorUs.value)
  }

  /** Older even by a second more. */
  predicate IsOlder(x: Row, days: real, nowUs: int, floorUs: Option<int>) {
    x.ts as real <= nowUs as real - days * 86_400_000_000.0 - 1_000_000.0 && (floorUs.Some? ==> x.ts < floorUs.value)
  }

  lemma LimitInNumbers(x: Row, days: real, nowUs: int, floorUs: Option<int>)
    requires nowUs as real >= days * DAY_IN_US
    ensures var limit := Limit(CutoffUs(days, nowUs), floorUs);
            (x.ts < limit ==> IsOld(x, days, nowUs, floorUs)) && (IsOlder(x, days, nowUs, floorUs) ==> x.ts < limit)
  {
    CutoffInNumbers(days, nowUs);
    hide CutoffUs;
  }

  lemma RoundIs(rounds: seq<Round>, i: nat, cutoff: int, t: Table)
    requires i < |rounds|
    ensures ArriveRecent(rounds, cutoff) ==> AllRecent(rounds[i].arrivals.Of(Other(t)), cutoff)
    ensures rounds[i].fault != NoFault ==> !NoFaults(rounds)
  {}

  lemma ShortPickLeavesRecent(m: Rows, cutoff: int, picked: Rows)
    requires IsPick(m, cutoff, picked) && |picked| < DELETE_BATCH
    ensures AllRecent(m - picked, cutoff)
  {}

  /** The counts by table are no more than the rows gone, and just as many. */
  ghost predicate RowsAtLeast(rows: map<Table, nat>, before: Store, now: Store) {
    && (Trades in rows ==> |now.trades| >= |before.trades| + rows[Trades])
    && (BookTop in rows ==> |now.bookTop| >= |before.bookTop| + rows[BookTop])
  }

  ghost predicate RowsExact(rows: map<Table, nat>, before: Store, now: Store) {
    && |now.trades| == |before.trades| + (if Trades in rows then rows[Trades] else 0)
    && |now.bookTop| == |before.bookTop| + (if BookTop in rows then rows[BookTop] else 0)
  }

  lemma OnlyTrades(rows: map<Table, nat>)
    requires BookTop !in rows
    ensures rows != map[] <==> Trades in rows
  {
    if Trades !in rows {
      assert forall t :: t in rows ==> t == Trades || t == BookTop;
    }
  }

  /** The state before the last event of a run. */
  ghost predicate LastIs(remote: bool, s: State, docs: seq<Document>, digest: Digest, es: seq<Event>, last: State) {
    es != [] && last == RunIn(remote, s, docs, digest, es[..|es| - 1])
  }

  lemma LastJoins(remote: bool, s: State, docs: seq<Document>, digest: Digest, es: seq<Event>, fs: seq<Event>, last: State, cutoff: int)
    ensures LastIs(remote, RunIn(remote, s, docs, digest, es), docs, digest, fs, last) ==> LastIs(remote, s, docs, digest, es + fs, last)
  {
    hide RunIn;
    if fs != [] {
      RunInJoins(remote, s, docs, digest, es, fs[..|fs| - 1], cutoff);
      assert (es + fs)[..|es + fs| - 1] == es + fs[..|fs| - 1];
    }
  }

  /** A table is finished: no row is left that the last batch might have taken, or with receipts there was no row left at
      all after rows of another table were deleted. */
  ghost predicate Finished(remote: bool, last: State, now: State, docs: seq<Document>, digest: Digest, t: Table, cutoff: int, othersDeleted: bool) {
    if !remote then AllRecent(now.store.Of(t), cutoff)
    else
      match BatchCutoff(last, docs, digest, cutoff)
      case None => Floor(last.store) == None && othersDeleted
      case Some(us) => AllRecent(now.store.Of(t), us)
  }

  lemma FinishedIsRecent(last: State, now: State, docs: seq<Document>, digest: Digest, t: Table, cutoff: int, othersDeleted: bool)
    requires Finished(false, last, now, docs, digest, t, cutoff, othersDeleted)
    ensures AllRecent(now.store.Of(t), cutoff)
  {}

  lemma ShortBatchFinishes(remote: bool, last: State, now: State, docs: seq<Document>, digest: Digest, t: Table, cutoff: int, othersDeleted: bool, picked: Rows)
    requires now.store == last.store.With(t, last.store.Of(t) - picked)
    requires remote ==> BatchCutoff(last, docs, digest, cutoff).Some?
    requires IsPick(last.store.Of(t), if remote then BatchCutoff(last, docs, digest, cutoff).value else cutoff, picked)
    ensures |picked| < DELETE_BATCH ==> Finished(remote, last, now, docs, digest, t, cutoff, othersDeleted)
  {
    hide BatchCutoff, Floor, IsPick, AllRecent;
    if |picked| < DELETE_BATCH {
      ShortPickLeavesRecent(last.store.Of(t), if remote then BatchCutoff(last, docs, digest, cutoff).value else cutoff, picked);
    }
  }

  lemma NoRowsFinishes(remote: bool, last: State, now: State, docs: seq<Document>, digest: Digest, t: Table, cutoff: int, othersDeleted: bool)
    requires remote && BatchCutoff(last, docs, digest, cutoff).None?
    ensures Floor(last.store) == None && othersDeleted ==> Finished(remote, last, now, docs, digest, t, cutoff, othersDeleted)
  {
    hide BatchCutoff, Floor, AllRecent;
  }

  /** A job that does not start: no retention is set, or an archive is asked for and there is none to rely on. */
  predicate Refused(retentionDays: real, floorUs: Option<int>, remote: bool, allowLocal: bool) {
    retentionDays <= 0.0 || (floorUs.Some? && ((!remote && !allowLocal) || floorUs.value <= 0))
  }

  // ---- Choosing rows ----

  /** The rows seen so far, split into those taken and those kept. */
  ghost predicate Sorted(m: Rows, todo: Rows, taken: Rows, kept: Rows, cutoff: int) {
    m == todo + taken + kept && (forall x :: x in taken ==> x.ts < cutoff) && (forall x :: x in kept ==> x.ts >= cutoff)
  }

  lemma Take(m: Rows, todo: Rows, taken: Rows, kept: Rows, cutoff: int, x: Row)
    requires Sorted(m, todo, taken, kept, cutoff) && x in todo && x.ts < cutoff
    ensures Sorted(m, todo - multiset{x}, taken + multiset{x}, kept, cutoff)
  {}

  lemma Keep(m: Rows, todo: Rows, taken: Rows, kept: Rows, cutoff: int, x: Row)
    requires Sorted(m, todo, taken, kept, cutoff) && x in todo && x.ts >= cutoff
    ensures Sorted(m, todo - multiset{x}, taken, kept + multiset{x}, cutoff)
  {}

  lemma AllSorted(m: Rows, todo: Rows, taken: Rows, kept: Rows, cutoff: int)
    requires Sorted(m, todo, taken, kept, cutoff) && |taken| <= DELETE_BATCH
    requires todo == multiset{} || |taken| == DELETE_BATCH
    ensures IsPick(m, cutoff, taken)
  {
    if |taken| < DELETE_BATCH {
      assert m - taken == kept;
    }
  }

  class Pruner {
    var trades: Rows
    var bookTop: Rows
    var progress: map<Key, Proof>
    ghost var gone: Store
    const docs: seq<Document>
    const digest: Digest

    ghost function Now(): State
      reads this
    {
      State(Store(trades, bookTop), progress, gone)
    }

    constructor (docs: seq<Document>, digest: Digest)
      ensures Now() == State(Store(multiset{}, multiset{}), map[], Store(multiset{}, multiset{}))
      ensures this.docs == docs && this.digest == digest
    {
      trades, bookTop, progress, gone := multiset{}, multiset{}, map[], Store(multiset{}, multiset{});
      this.docs, this.digest := docs, digest;
    }

    static method EarliestTs(m: Rows) returns (r: Option<int>)
      ensures r == Earliest(m)
    {
      hide Earliest;
      r := None;
      var todo := m;
      while todo != multiset{}
        invariant todo <= m
        invariant r == None <==> todo == m
        invariant r.Some? ==> exists x :: x in m && x.ts == r.value
        invariant r.Some? ==> forall x :: x in m && m[x] > todo[x] ==> r.value <= x.ts
        decreases |todo|
      {
        var x :| x in todo;
        if r.None? || x.ts < r.value {
          r := Some(x.ts);
        }
        todo := todo - multiset{x};
      }
    }

    method FloorDay() returns (r: Option<int>)
      ensures r == Floor(Store(trades, bookTop))
    {
      var a := EarliestTs(trades);
      var b := EarliestTs(bookTop);
      r := Sooner(DayOfEarliest(a), DayOfEarliest(b));
    }

    /** The rows of a day, counted and digested. */
    method SourceDayProof(t: Table, day: int) returns (p: Proof)
      ensures p == ProofOf(digest, t, DayPart(Now().store.Of(t), day))
    {
      hide DayPart;
      var m := if t == Trades then trades else bookTop;
      var todo, part: Rows, count := m, multiset{}, 0;
      while todo != multiset{}
        invariant todo <= m && count == |part|
        invariant forall x :: part[x] == if DayOf(x.ts) == day then m[x] - todo[x] else 0
        decreases |todo|
      {
        var x :| x in todo;
        if DayOf(x.ts) == day {
          part, count := part + multiset{x}, count + 1;
        }
        todo := todo - multiset{x};
      }
      assert part == DayPart(m, day);
      p := Proof(count, digest(t, part));
    }

    method VerifiedReceipts(t: Table) returns (r: map<int, Proof>)
      ensures r == Receipts(docs, t)
    {
      r := map[];
      for i := 0 to |docs|
        invariant r == Receipts(docs[..i], t)
      {
        assert docs[..i + 1][..i] == docs[..i];
        if Strict(docs[i], t) {
          r := r[docs[i].day.value := Proof(docs[i].sourceRows, docs[i].sourceSha)];
        }
      }
      assert docs[..|docs|] == docs;
    }

    method SourceMatches(t: Table, day: int, receipt: Proof) returns (ok: bool)
      requires day in Common(docs) && receipt == Receipts(docs, t)[day]
      ensures ok == Matches(Now().store, docs, progress, digest, t, day)
    {
      var p := SourceDayProof(t, day);
      if (t, day) in progress {
        return progress[(t, day)] == p;
      }
      ok := receipt == p;
    }

    method RetentionCutoff() returns (r: Cutoff)
      ensures r == RemoteCutoff(Store(trades, bookTop), docs, progress, digest)
    {
      hide Floor, Matches;
      var floor := FloorDay();
      if floor.None? {
        return Blocked(NoSourceRows);
      }
      var tradeReceipts := VerifiedReceipts(Trades);
      var bookReceipts := VerifiedReceipts(BookTop);
      var common := tradeReceipts.Keys * bookReceipts.Keys;
      if floor.value !in common {
        return Blocked(MissingRemoteCoverage);
      }
      var day := floor.value;
      ghost var left := common;
      while day in common
        invariant left <= common && forall d :: d >= day && d in common ==> d in left
        invariant Covered(Now().store, docs, progress, digest, floor.value, common) == Covered(Now().store, docs, progress, digest, day, left)
        decreases left
      {
        var ok := SourceMatches(Trades, day, tradeReceipts[day]);
        if !ok {
          return Blocked(SourceDayChanged);
        }
        ok := SourceMatches(BookTop, day, bookReceipts[day]);
        if !ok {
          return Blocked(SourceDayChanged);
        }
        left := left - {day};
        day := day + 1;
      }
      r := Allowed(DayStart(day));
    }

    /** The database takes any rows that are old enough, up to the limit. */
    static method Choose(m: Rows, cutoff: int) returns (taken: Rows)
      ensures IsPick(m, cutoff, taken)
    {
      hide IsPick;
      var todo := m;
      taken := multiset{};
      ghost var kept: Rows := multiset{};
      while todo != multiset{} && |taken| < DELETE_BATCH
        invariant Sorted(m, todo, taken, kept, cutoff) && |taken| <= DELETE_BATCH
        decreases |todo|
      {
        hide Sorted;
        var x :| x in todo;
        if x.ts < cutoff {
          Take(m, todo, taken, kept, cutoff, x);
          taken := taken + multiset{x};
        } else {
          Keep(m, todo, taken, kept, cutoff, x);
          kept := kept + multiset{x};
        }
        todo := todo - multiset{x};
      }
      AllSorted(m, todo, taken, kept, cutoff);
    }

    method DeleteOlderThan(t: Table, cutoff: int) returns (got: nat, ghost picked: Rows)
      modifies this`trades, this`bookTop, this`gone
      ensures IsPick(old(Now()).store.Of(t), cutoff, picked) && got == |picked|
      ensures Now() == Deleted(old(Now()), t, picked)
    {
      hide IsPick;
      var m := if t == Trades then trades else bookTop;
      var taken := Choose(m, cutoff);
      if t == Trades {
        trades := trades - taken;
      } else {
        bookTop := bookTop - taken;
      }
      gone := gone.With(t, gone.Of(t) + taken);
      got, picked := |taken|, taken;
    }

    /** How far a batch may delete and, with receipts, the day it is confined to. */
    method FindCutoff(cutoff: int, floorUs: Option<int>, remote: bool) returns (r: Result<(int, Option<int>), Reason>)
      ensures !remote ==> r == Ok((cutoff, None))
      ensures remote ==> IsCutoff(Now(), docs, digest, cutoff, floorUs, r)
    {
      hide Floor, RemoteCutoff, IsCutoff, Min, DayStart;
      if !remote {
        return Ok((cutoff, None));
      }
      var c := RetentionCutoff();
      var floor := FloorDay();
      CutoffIs(Now(), docs, digest, cutoff, floorUs);
      if c.Blocked? {
        var reason := c.reason;
        if reason == MissingRemoteCoverage && floorUs.Some? && floor.Some? && DayStart(floor.value) < floorUs.value {
          reason := SourceFloorChanged;
        }
        return Err(reason);
      }
      var batchCutoff := Min(cutoff, c.us);
      if floor.Some? {
        batchCutoff := Min(batchCutoff, DayStart(floor.value + 1));
      }
      r := Ok((batchCutoff, floor));
    }

    /** Deletes, and records what is left of the day; a failure in between leaves the rows deleted. */
    method DeleteAndRecord(t: Table, cutoff: int, day: Option<int>, fault: Fault) returns (o: Outcome, ghost picked: Rows)
      modifies this`trades, this`bookTop, this`gone, this`progress
      ensures fault != DeleteFails ==> IsPick(old(Now()).store.Of(t), cutoff, picked)
      ensures fault == DeleteFails ==> picked == multiset{}
      ensures var after := Deleted(old(Now()), t, picked);
              Now() == if day.Some? && picked != multiset{} && fault == NoFault then Recorded(after, digest, t, day.value) else after
      ensures o == if fault == DeleteFails || (fault == RecordFails && day.Some? && picked != multiset{}) then Fails
                   else Deletes(|picked|)
    {
      hide IsPick, DayPart;
      if fault == DeleteFails {
        DeletedNothing(Now(), t);
        return Fails, multiset{};
      }
      var got;
      got, picked := DeleteOlderThan(t, cutoff);
      if got > 0 && day.Some? {
        var p := SourceDayProof(t, day.value);
        if fault == RecordFails {
          return Fails, picked;
        }
        progress := progress[(t, day.value) := p];
      }
      o := Deletes(got);
    }

    /** One batch, made while the guard is held. */
    method PruneBatch(t: Table, cutoff: int, floorUs: Option<int>, remote: bool, fault: Fault)
      returns (o: Outcome, ghost picked: Rows)
      modifies this`trades, this`bookTop, this`gone, this`progress
      ensures Now() == StepIn(remote, old(Now()), docs, digest, Batch(t, cutoff, picked, fault != RecordFails))
      ensures Now().gone == old(Now()).gone.With(t, old(Now()).gone.Of(t) + picked)
      ensures Now().store == old(Now()).store.With(t, old(Now()).store.Of(t) - picked)
      ensures o.Stops? <==> remote && BatchCutoff(old(Now()), docs, digest, cutoff).None?
      ensures o == Stops(NoSourceRows) ==> Floor(old(Now()).store) == None
      ensures o.Stops? ==> ReportedReason(old(Now()), docs, digest, floorUs) == Some(o.reason)
      ensures o.Stops? || fault == DeleteFails ==> picked == multiset{}
      ensures o.Fails? ==> fault != NoFault
      ensures o.Deletes? ==> o.got == |picked|
      ensures o.Deletes? ==>
                IsPick(old(Now()).store.Of(t), if remote then BatchCutoff(old(Now()), docs, digest, cutoff).value else cutoff, picked)
    {
      hide IsPick, BatchCutoff, DayPart, ProofOf, ReportedReason, Floor;
      var r := FindCutoff(cutoff, floorUs, remote);
      if r.Err? {
        DeletedNothing(Now(), t);
        return Stops(r.error), multiset{};
      }
      o, picked := DeleteAndRecord(t, r.value.0, r.value.1, fault);
      StepOfBatch(old(Now()), docs, digest, remote, t, cutoff, picked, fault, r.value.0, r.value.1);
    }

    method Insert(rows: Store)
      modifies this`trades, this`bookTop
      ensures Now() == old(Now()).(store := Store(old(trades) + rows.trades, old(bookTop) + rows.bookTop))
    {
      trades, bookTop := trades + rows.trades, bookTop + rows.bookTop;
    }

    /** Rows arrive, and then one batch is made. */
    method PruneRound(t: Table, cutoff: int, floorUs: Option<int>, remote: bool, othersDeleted: bool, round: Round)
      returns (o: Outcome, ghost picked: Rows, ghost arrived: State)
      modifies this`trades, this`bookTop, this`gone, this`progress
      ensures arrived == old(Now()).(store := Store(old(trades) + round.arrivals.trades, old(bookTop) + round.arrivals.bookTop))
      ensures Now() == StepIn(remote, arrived, docs, digest, Batch(t, cutoff, picked, round.fault != RecordFails))
      ensures Now().gone == arrived.gone.With(t, arrived.gone.Of(t) + picked)
      ensures o.Stops? || (o.Fails? && round.fault == DeleteFails) ==> picked == multiset{}
      ensures o.Stops? ==> remote && ReportedReason(arrived, docs, digest, floorUs) == Some(o.reason)
      ensures o.Fails? ==> round.fault != NoFault
      ensures o.Deletes? ==> o.got == |picked|
      ensures (o.Deletes? && o.got < DELETE_BATCH) || (o == Stops(NoSourceRows) && othersDeleted) ==>
                Finished(remote, arrived, Now(), docs, digest, t, cutoff, othersDeleted)
      ensures AllRecent(round.arrivals.Of(Other(t)), cutoff) && AllRecent(old(Now()).store.Of(Other(t)), cutoff) ==>
                AllRecent(Now().store.Of(Other(t)), cutoff)
    {
      hide StepIn, BatchCutoff, IsPick, Floor, Finished, ReportedReason;
      Insert(round.arrivals);
      arrived := Now();
      o, picked := PruneBatch(t, cutoff, floorUs, remote, round.fault);
      if o.Deletes? {
        ShortBatchFinishes(remote, arrived, Now(), docs, digest, t, cutoff, othersDeleted, picked);
      } else if o == Stops(NoSourceRows) {
        NoRowsFinishes(remote, arrived, Now(), docs, digest, t, cutoff, othersDeleted);
      }
    }

    /** Batch after batch of one table, with rows arriving in between, until a batch is short, the time is up, or
        something is in the way. */
    method PruneTable(t: Table, cutoff: int, floorUs: Option<int>, remote: bool, othersDeleted: bool, rounds: seq<Round>,
                      start: nat)
      returns (n: nat, used: nat, batches: nat, ending: Ending, ghost trace: seq<Event>, ghost last: State)
      requires start <= |rounds|
      modifies this`trades, this`bookTop, this`gone, this`progress
      ensures start <= used <= |rounds|
      ensures Now() == RunIn(remote, old(Now()), docs, digest, trace)
      ensures CutoffsBelow(trace, cutoff)
      ensures forall u :: Arrived(rounds[..start], u) + Inserted(trace, u) == Arrived(rounds[..used], u)
      ensures ending != Failed ==> |Now().gone.Of(t)| == |old(gone).Of(t)| + n
      ensures |Now().gone.Of(t)| >= |old(gone).Of(t)| + n
      ensures Now().gone.Of(Other(t)) == old(gone).Of(Other(t))
      ensures ending == OutOfBudget ==> used == |rounds|
      ensures ending == Halted(NoSourceRows) ==> !othersDeleted
      ensures ending.Halted? ==> remote && ReportedReason(last, docs, digest, floorUs) == Some(ending.reason)
      ensures ending == Done || ending.Halted? ==> LastIs(remote, old(Now()), docs, digest, trace, last)
      ensures 3 * batches <= |trace| <= 3 * batches + 3 && (ending == OutOfBudget ==> |trace| == 3 * batches)
      ensures ending == Done ==> Finished(remote, last, Now(), docs, digest, t, cutoff, othersDeleted)
      ensures ending == Failed ==> !NoFaults(rounds)
      ensures ArriveRecent(rounds, cutoff) && AllRecent(old(Now()).store.Of(Other(t)), cutoff) ==>
                AllRecent(Now().store.Of(Other(t)), cutoff)
    {
      hide RunIn, StepIn, Arrived, Inserted, CutoffsBelow, ArriveRecent, AllRecent, Finished, NoFaults, ReportedReason;
      n, used, batches, ending, trace, last := 0, start, 0, Done, [], Now();
      NothingRun(remote, Now(), docs, digest);
      while true
        invariant start <= used <= |rounds|
        invariant Now() == RunIn(remote, old(Now()), docs, digest, trace)
        invariant CutoffsBelow(trace, cutoff)
        invariant forall u :: Arrived(rounds[..start], u) + Inserted(trace, u) == Arrived(rounds[..used], u)
        invariant |gone.Of(t)| == |old(gone).Of(t)| + n && gone.Of(Other(t)) == old(gone).Of(Other(t))
        invariant ArriveRecent(rounds, cutoff) && AllRecent(old(Now()).store.Of(Other(t)), cutoff) ==>
                    AllRecent(Now().store.Of(Other(t)), cutoff)
        invariant ending == Done && |trace| == 3 * batches
        decreases |rounds| - used
      {
        if used == |rounds| {
          ending := OutOfBudget;
          break;
        }
        ghost var before := Now();
        RoundIs(rounds, used, cutoff, t);
        var o;
        ghost var picked;
        o, picked, last := PruneRound(t, cutoff, floorUs, remote, othersDeleted, rounds[used]);
        ghost var event := Batch(t, cutoff, picked, rounds[used].fault != RecordFails);
        RoundRuns(remote, old(Now()), docs, digest, trace, before, rounds, start, used, event, last, cutoff);
        trace := trace + [Event.Insert(Trades, rounds[used].arrivals.trades), Event.Insert(BookTop, rounds[used].arrivals.bookTop), event];
        used := used + 1;
        if o.Stops? {
          if !(o.reason == NoSourceRows && othersDeleted) {
            ending := Halted(o.reason);
          }
          break;
        }
        if o.Fails? {
          ending := Failed;
          break;
        }
        batches := batches + 1;
        if o.got <= 0 {
          break;
        }
        n := n + o.got;
        if o.got < DELETE_BATCH {
          break;
        }
      }
    }

    /** The whole job: both tables, one after the other. */
    method Prune(retentionDays: real, nowUs: int, floorUs: Option<int>, remote: bool, allowLocal: bool, rounds: seq<Round>)
      returns (r: PruneResult, ghost trace: seq<Event>, ghost last: State)
      modifies this`trades, this`bookTop, this`gone, this`progress
      ensures Now() == RunIn(remote, old(Now()), docs, digest, trace)
      ensures CutoffsBelow(trace, Limit(CutoffUs(retentionDays, nowUs), floorUs))
      ensures Refused(retentionDays, floorUs, remote, allowLocal) ==> trace == [] && r.rows == map[]
      ensures RowsAtLeast(r.rows, old(gone), Now().gone)
      ensures var limit := Limit(CutoffUs(retentionDays, nowUs), floorUs);
              && (remote && Injective(digest) && ProgressOk(old(Now()), docs, digest) && GoneIsArchived(old(Now()), docs, digest, limit) ==>
                    GoneIsArchived(Now(), docs, digest, limit))
              && (!remote ==> forall t, x :: x in Now().gone.Of(t) ==> x in old(gone).Of(t) || x.ts < limit)
      ensures nowUs as real >= retentionDays * DAY_IN_US ==>
                forall t, x :: Now().gone.Of(t)[x] > old(gone).Of(t)[x] ==> IsOld(x, retentionDays, nowUs, floorUs)
      ensures NoFaults(rounds) && r.blocked == None ==>
                RowsExact(r.rows, old(gone), Now().gone)
      ensures !Refused(retentionDays, floorUs, remote, allowLocal) && r.blocked.Some? ==>
                && LastIs(remote, old(Now()), docs, digest, trace, last)
                && r.blocked == ReportedReason(last, docs, digest, floorUs)
      ensures Refused(retentionDays, floorUs, remote, allowLocal) ==>
                r.blocked == if retentionDays <= 0.0 || (!remote && allowLocal) then None else Some(MissingRemoteCoverage)
      ensures !Refused(retentionDays, floorUs, remote, allowLocal) && NoFaults(rounds) && !r.budgetHit && r.blocked == None ==>
                && LastIs(remote, old(Now()), docs, digest, trace, last)
                && Finished(remote, last, Now(), docs, digest, BookTop, Limit(CutoffUs(retentionDays, nowUs), floorUs), Trades in r.rows)
      ensures !Refused(retentionDays, floorUs, remote, allowLocal) && !remote && NoFaults(rounds) && !r.budgetHit &&
              nowUs as real >= retentionDays * DAY_IN_US &&
              (forall i, t, x :: 0 <= i < |rounds| && x in rounds[i].arrivals.Of(t) ==> !IsOld(x, retentionDays, nowUs, floorUs)) ==>
                forall t, x :: x in Now().store.Of(t) ==> !IsOlder(x, retentionDays, nowUs, floorUs)
    {
      hide RunIn, CutoffsBelow, CutoffUs, GoneIsArchived, ProgressOk, Injective, Arrived, Inserted, IsOld, IsOlder, NoFaults, ReportedReason, Finished, LastIs;
      r, trace, last := NOTHING, [], Now();
      NothingRun(remote, Now(), docs, digest);
      if retentionDays <= 0.0 {
        return;
      }
      if floorUs.Some? && !remote && !allowLocal {
        r := r.(blocked := Some(MissingRemoteCoverage));
        return;
      }
      var cutoff := CutoffUs(retentionDays, nowUs);
      if floorUs.Some? {
        if floorUs.value <= 0 {
          r := r.(blocked := if remote then Some(MissingRemoteCoverage) else None);
          return;
        }
        cutoff := Min(cutoff, floorUs.value);
      }
      r, trace, last := PruneTables(cutoff, floorUs, remote, rounds);
      if remote && Injective(digest) && ProgressOk(old(Now()), docs, digest) && GoneIsArchived(old(Now()), docs, digest, cutoff) {
        RunInDeletesArchived(old(Now()), docs, digest, trace, cutoff);
      }
      if nowUs as real >= retentionDays * DAY_IN_US {
        forall x: Row
          ensures x.ts < cutoff ==> IsOld(x, retentionDays, nowUs, floorUs)
          ensures IsOlder(x, retentionDays, nowUs, floorUs) ==> x.ts < cutoff
        {
          LimitInNumbers(x, retentionDays, nowUs, floorUs);
        }
        forall t, x | Now().gone.Of(t)[x] > old(gone).Of(t)[x]
          ensures IsOld(x, retentionDays, nowUs, floorUs)
        {
          RunDeletesOld(remote, old(Now()), docs, digest, trace, cutoff, t, x);
        }
      }
      if !remote {
        LocalRunKeepsRecent(old(Now()), docs, digest, trace, cutoff, Trades);
        LocalRunKeepsRecent(old(Now()), docs, digest, trace, cutoff, BookTop);
      }
    }

    method PruneTables(cutoff: int, floorUs: Option<int>, remote: bool, rounds: seq<Round>)
      returns (r: PruneResult, ghost trace: seq<Event>, ghost last: State)
      modifies this`trades, this`bookTop, this`gone, this`progress
      ensures Now() == RunIn(remote, old(Now()), docs, digest, trace) && CutoffsBelow(trace, cutoff)
      ensures RowsAtLeast(r.rows, old(gone), Now().gone)
      ensures r.budgetHit ==> r.blocked == None
      ensures NoFaults(rounds) && r.blocked == None ==>
                RowsExact(r.rows, old(gone), Now().gone)
      ensures !remote && NoFaults(rounds) && !r.budgetHit && ArriveRecent(rounds, cutoff) ==>
                AllRecent(Now().store.trades, cutoff) && AllRecent(Now().store.bookTop, cutoff)
      ensures !remote ==> r.blocked == None
      ensures r.blocked.Some? ==> LastIs(remote, old(Now()), docs, digest, trace, last) && r.blocked == ReportedReason(last, docs, digest, floorUs)
      ensures NoFaults(rounds) && !r.budgetHit && r.blocked == None ==>
                && LastIs(remote, old(Now()), docs, digest, trace, last)
                && Finished(remote, last, Now(), docs, digest, BookTop, cutoff, Trades in r.rows)
      ensures 3 * r.batches <= |trace| <= 3 * r.batches + 6
    {
      hide RunIn, CutoffsBelow, Arrived, Inserted, ArriveRecent, AllRecent, NoFaults, Finished, ReportedReason, LastIs;
      var n, used, batches, ending;
      n, used, batches, ending, trace, last := PruneTable(Trades, cutoff, floorUs, remote, false, rounds, 0);
      if ending.Halted? {
        return PruneResult(map[], false, batches, Some(ending.reason)), trace, last;
      }
      var rows: map<Table, nat> := map[];
      if n > 0 {
        rows := rows[Trades := n];
      }
      if ending == OutOfBudget {
        return PruneResult(rows, true, batches, None), trace, last;
      }
      if !remote && ending == Done {
        FinishedIsRecent(last, Now(), docs, digest, Trades, cutoff, false);
      }
      ghost var first := trace;
      r, trace, last := PruneBookTop(cutoff, floorUs, remote, rounds, used, rows, batches);
      RunInJoins(remote, old(Now()), docs, digest, first, trace, cutoff);
      LastJoins(remote, old(Now()), docs, digest, first, trace, last, cutoff);
      trace := first + trace;
    }

    /** The second table, with what the first one came to. */
    method PruneBookTop(cutoff: int, floorUs: Option<int>, remote: bool, rounds: seq<Round>, start: nat, sofar: map<Table, nat>, batches: nat)
      returns (r: PruneResult, ghost trace: seq<Event>, ghost last: State)
      requires start <= |rounds| && BookTop !in sofar
      modifies this`trades, this`bookTop, this`gone, this`progress
      ensures Now() == RunIn(remote, old(Now()), docs, digest, trace) && CutoffsBelow(trace, cutoff)
      ensures Now().gone.trades == old(gone).trades
      ensures (Trades in r.rows <==> Trades in sofar) && (Trades in sofar ==> r.rows[Trades] == sofar[Trades])
      ensures BookTop in r.rows ==> |Now().gone.bookTop| >= |old(gone).bookTop| + r.rows[BookTop]
      ensures NoFaults(rounds) && r.blocked == None ==>
                |Now().gone.bookTop| == |old(gone).bookTop| + if BookTop in r.rows then r.rows[BookTop] else 0
      ensures r.budgetHit ==> r.blocked == None
      ensures !remote ==> r.blocked == None
      ensures !remote && NoFaults(rounds) && !r.budgetHit ==> AllRecent(Now().store.bookTop, cutoff)
      ensures ArriveRecent(rounds, cutoff) && AllRecent(old(trades), cutoff) ==> AllRecent(Now().store.trades, cutoff)
      ensures r.blocked.Some? ==> LastIs(remote, old(Now()), docs, digest, trace, last) && r.blocked == ReportedReason(last, docs, digest, floorUs)
      ensures NoFaults(rounds) && !r.budgetHit && r.blocked == None ==>
                && LastIs(remote, old(Now()), docs, digest, trace, last)
                && Finished(remote, last, Now(), docs, digest, BookTop, cutoff, Trades in sofar)
      ensures batches <= r.batches && 3 * (r.batches - batches) <= |trace| <= 3 * (r.batches - batches) + 3
    {
      hide RunIn, CutoffsBelow, Arrived, Inserted, ArriveRecent, AllRecent, NoFaults, Finished, ReportedReason, LastIs;
      OnlyTrades(sofar);
      var n, used, more, ending;
      n, used, more, ending, trace, last := PruneTable(BookTop, cutoff, floorUs, remote, sofar != map[], rounds, start);
      if ending.Halted? {
        return PruneResult(sofar, false, batches + more, Some(ending.reason)), trace, last;
      }
      if !remote && ending == Done {
        FinishedIsRecent(last, Now(), docs, digest, BookTop, cutoff, sofar != map[]);
      }
      r := PruneResult(if n > 0 then sofar[BookTop := n] else sofar, ending == OutOfBudget, batches + more, None);
    }
  }
}
