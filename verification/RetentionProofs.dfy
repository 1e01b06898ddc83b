/** Nothing is deleted that is not in a verified archive, however inserts and deletion batches interleave. */
module RetentionProofs {
  import opened Wrappers
  import opened Retention

  ghost predicate Injective(digest: Digest) {
    forall t, m, n :: digest(t, m) == digest(t, n) ==> m == n
  }

  // ---- The verified range ----

  lemma EarliestDay(m: Rows)
    ensures Earliest(m).Some? ==> DayPart(m, DayOf(Earliest(m).value)) != multiset{}
    ensures forall x :: x in m ==> Earliest(m).Some? && DayOf(Earliest(m).value) <= DayOf(x.ts)
  {
    if Earliest(m).Some? {
      var x :| x in m && x.ts == Earliest(m).value;
      assert x in DayPart(m, DayOf(x.ts));
      forall y | y in m
        ensures DayOf(Earliest(m).value) <= DayOf(y.ts)
      {
        LaterDay(Earliest(m).value, y.ts);
      }
    }
  }

  lemma LaterDay(a: int, b: int)
    requires a <= b
    ensures DayOf(a) <= DayOf(b)
  {}

  /** The floor is the first day that has rows. */
  lemma FloorIsFirst(s: Store)
    ensures Floor(s) == None <==> s.trades == multiset{} && s.bookTop == multiset{}
    ensures Floor(s).Some? ==> exists t :: DayPart(s.Of(t), Floor(s).value) != multiset{}
    ensures forall x :: x in s.trades ==> Floor(s).Some? && Floor(s).value <= DayOf(x.ts)
    ensures forall x :: x in s.bookTop ==> Floor(s).Some? && Floor(s).value <= DayOf(x.ts)
  {
    hide DayOf, Earliest, DayPart;
    EarliestDay(s.trades);
    EarliestDay(s.bookTop);
    assert s.Of(Trades) == s.trades && s.Of(BookTop) == s.bookTop;
  }

  /** The days from `day` to `end` are covered, and all of them hold what they must. */
  ghost predicate AllMatch(s: Store, docs: seq<Document>, progress: map<Key, Proof>, digest: Digest, day: int, end: int) {
    forall d :: day <= d < end ==>
      (d in Common(docs) && Matches(s, docs, progress, digest, Trades, d) && Matches(s, docs, progress, digest, BookTop, d))
  }

  lemma {:induction false} CoveredMeans(s: Store, docs: seq<Document>, progress: map<Key, Proof>, digest: Digest,
                                        day: int, left: set<int>)
    requires left <= Common(docs) && forall d :: d >= day && d in Common(docs) ==> d in left
    ensures var c := Covered(s, docs, progress, digest, day, left);
            && (forall end :: c == Allowed(DayStart(end)) <==>
                  day <= end && end !in Common(docs) && AllMatch(s, docs, progress, digest, day, end))
            && (c.Allowed? ==> exists end :: c == Allowed(DayStart(end)))
            && (c.Allowed? || c == Blocked(SourceDayChanged))
    decreases left
  {
    hide Common, Matches;
    var c := Covered(s, docs, progress, digest, day, left);
    if day !in left {
      assert c == Allowed(DayStart(day));
    } else if Matches(s, docs, progress, digest, Trades, day) && Matches(s, docs, progress, digest, BookTop, day) {
      CoveredMeans(s, docs, progress, digest, day + 1, left - {day});
    } else {
      forall end | day <= end && end !in Common(docs)
        ensures !AllMatch(s, docs, progress, digest, day, end)
      {}
    }
  }

  /** Deletion is allowed, up to the start of day `end`, exactly when the days from the first one with rows up to
      `end`, the first without receipts for both tables, all hold what they must. */
  lemma AllowedMeans(s: Store, docs: seq<Document>, progress: map<Key, Proof>, digest: Digest, end: int)
    ensures RemoteCutoff(s, docs, progress, digest) == Allowed(DayStart(end)) <==>
              && Floor(s).Some? && Floor(s).value < end && end !in Common(docs)
              && AllMatch(s, docs, progress, digest, Floor(s).value, end)
  {
    hide Common, Matches, Floor;
    if Floor(s).Some? && Floor(s).value in Common(docs) {
      CoveredMeans(s, docs, progress, digest, Floor(s).value, Common(docs));
    } else if Floor(s).Some? && Floor(s).value < end {
      MatchesFirst(s, docs, progress, digest, Floor(s).value, end);
    }
  }

  lemma MatchesFirst(s: Store, docs: seq<Document>, progress: map<Key, Proof>, digest: Digest, day: int, end: int)
    requires day < end
    ensures AllMatch(s, docs, progress, digest, day, end) ==> day in Common(docs)
  {}

  lemma AllowedHasEnd(s: Store, docs: seq<Document>, progress: map<Key, Proof>, digest: Digest) returns (end: int)
    requires RemoteCutoff(s, docs, progress, digest).Allowed?
    ensures RemoteCutoff(s, docs, progress, digest) == Allowed(DayStart(end))
  {
    hide Common, Matches, Floor;
    CoveredMeans(s, docs, progress, digest, Floor(s).value, Common(docs));
    end :| RemoteCutoff(s, docs, progress, digest) == Allowed(DayStart(end));
  }

  // ---- What one batch deletes ----

  lemma DayBounds(ts: int, day: int)
    requires day <= DayOf(ts) && ts < DayStart(day + 1)
    ensures DayOf(ts) == day
  {}

  /** A batch only takes rows of the first day, which both receipts cover and which holds what it must. */
  lemma PickedFromFloor(s: State, docs: seq<Document>, digest: Digest, t: Table, cutoff: int, picked: Rows)
    requires var bc := BatchCutoff(s, docs, digest, cutoff); bc.Some? && IsPick(s.store.Of(t), bc.value, picked)
    ensures Floor(s.store).Some? && Floor(s.store).value in Common(docs)
    ensures Matches(s.store, docs, s.progress, digest, Trades, Floor(s.store).value)
    ensures Matches(s.store, docs, s.progress, digest, BookTop, Floor(s.store).value)
    ensures forall x :: x in picked ==> DayOf(x.ts) == Floor(s.store).value && x.ts < cutoff
    ensures picked <= DayPart(s.store.Of(t), Floor(s.store).value)
  {
    hide Common, Matches;
    var end := AllowedHasEnd(s.store, docs, s.progress, digest);
    AllowedMeans(s.store, docs, s.progress, digest, end);
    FloorIsFirst(s.store);
    hide Floor;
    var floor := Floor(s.store).value;
    assert AllMatch(s.store, docs, s.progress, digest, floor, end);
    assert floor in Common(docs);
    forall x | x in picked
      ensures DayOf(x.ts) == floor && x.ts < cutoff
    {
      assert x in s.store.Of(t);
      DayBounds(x.ts, floor);
    }
    forall x
      ensures picked[x] <= DayPart(s.store.Of(t), floor)[x]
    {
      if x in picked {
        assert DayOf(x.ts) == floor;
      }
    }
  }

  // ---- Safety over every run ----

  /** `c` is what a receipt proves of that day. */
  ghost predicate IsArchive(docs: seq<Document>, digest: Digest, t: Table, day: int, c: Rows) {
    day in Common(docs) && day in Receipts(docs, t) && ProofOf(digest, t, c) == Receipts(docs, t)[day]
  }

  ghost predicate PartOfArchive(docs: seq<Document>, digest: Digest, t: Table, day: int, m: Rows) {
    exists c :: IsArchive(docs, digest, t, day, c) && m <= c
  }

  ghost predicate ProgressOk(s: State, docs: seq<Document>, digest: Digest) {
    forall t, day :: (t, day) in s.progress ==>
      exists m :: ProofOf(digest, t, m) == s.progress[(t, day)] && PartOfArchive(docs, digest, t, day, m)
  }

  lemma MatchedIsArchived(s: State, docs: seq<Document>, digest: Digest, t: Table, day: int)
    requires Injective(digest) && ProgressOk(s, docs, digest)
    requires day in Common(docs) && Matches(s.store, docs, s.progress, digest, t, day)
    ensures PartOfArchive(docs, digest, t, day, DayPart(s.store.Of(t), day))
  {
    hide DayPart, Receipts;
    if (t, day) in s.progress {
      var m :| ProofOf(digest, t, m) == s.progress[(t, day)] && PartOfArchive(docs, digest, t, day, m);
      assert digest(t, m) == digest(t, DayPart(s.store.Of(t), day));
    } else {
      assert IsArchive(docs, digest, t, day, DayPart(s.store.Of(t), day));
    }
  }

  lemma SmallerPart(docs: seq<Document>, digest: Digest, t: Table, day: int, m: Rows, n: Rows)
    requires PartOfArchive(docs, digest, t, day, m) && n <= m
    ensures PartOfArchive(docs, digest, t, day, n)
  {
    hide IsArchive;
    var c :| IsArchive(docs, digest, t, day, c) && m <= c;
    assert n <= c;
  }

  /** One batch, whatever came before it: the rows it deletes are part of what the receipt for their day proves,
      the other table has a receipt for that day too, and they are older than the cutoff. */
  lemma BatchDeletesArchived(s: State, docs: seq<Document>, digest: Digest, t: Table, cutoff: int, picked: Rows)
    requires Injective(digest) && ProgressOk(s, docs, digest)
    requires var bc := BatchCutoff(s, docs, digest, cutoff); bc.Some? && IsPick(s.store.Of(t), bc.value, picked)
    ensures Floor(s.store).Some?
    ensures var day := Floor(s.store).value;
            && PartOfArchive(docs, digest, t, day, picked)
            && day in Common(docs)
            && forall x :: x in picked ==> DayOf(x.ts) == day && x.ts < cutoff
  {
    hide Common, Matches, Receipts, Floor, BatchCutoff, IsPick, PartOfArchive, ProgressOk, DayOf;
    PickedFromFloor(s, docs, digest, t, cutoff, picked);
    MatchedIsArchived(s, docs, digest, t, Floor(s.store).value);
    SmallerPart(docs, digest, t, Floor(s.store).value, DayPart(s.store.Of(t), Floor(s.store).value), picked);
  }

  lemma DayPartOfLess(m: Rows, picked: Rows, day: int)
    requires picked <= m && forall x :: x in picked ==> DayOf(x.ts) == day
    ensures DayPart(m - picked, day) == DayPart(m, day) - picked
    ensures DayPart(m - picked, day) <= DayPart(m, day)
    ensures forall d :: d != day ==> DayPart(m - picked, d) == DayPart(m, d)
  {
    hide DayOf, DayPart;
    forall d | d != day
      ensures DayPart(m - picked, d) == DayPart(m, d)
    {}
    assert DayPart(m - picked, day) == DayPart(m, day) - picked;
  }

  lemma StepKeepsProgress(s: State, docs: seq<Document>, digest: Digest, e: Event)
    requires Injective(digest) && ProgressOk(s, docs, digest)
    ensures ProgressOk(Step(s, docs, digest, e), docs, digest)
  {
    hide Common, Matches, Receipts, Floor, BatchCutoff, IsPick, PartOfArchive, DayOf, DayPart, ProofOf;
    if e.Batch? {
      var bc := BatchCutoff(s, docs, digest, e.cutoff);
      if bc.Some? && IsPick(s.store.Of(e.table), bc.value, e.picked) && e.recorded && e.picked != multiset{} {
        PickedFromFloor(s, docs, digest, e.table, e.cutoff, e.picked);
        var day := Floor(s.store).value;
        MatchedIsArchived(s, docs, digest, e.table, day);
        PickIsPart(s.store.Of(e.table), bc.value, e.picked);
        DayPartOfLess(s.store.Of(e.table), e.picked, day);
        SmallerPart(docs, digest, e.table, day, DayPart(s.store.Of(e.table), day), DayPart(s.store.Of(e.table) - e.picked, day));
      }
    }
  }

  lemma PickIsPart(m: Rows, cutoff: int, picked: Rows)
    requires IsPick(m, cutoff, picked)
    ensures picked <= m && |picked| <= DELETE_BATCH
  {}

  lemma {:induction false} RunKeepsProgress(s: State, docs: seq<Document>, digest: Digest, es: seq<Event>)
    requires Injective(digest) && ProgressOk(s, docs, digest)
    ensures ProgressOk(Run(s, docs, digest, es), docs, digest)
    decreases |es|
  {
    if es != [] {
      hide ProgressOk, Step, Injective;
      RunKeepsProgress(s, docs, digest, es[..|es| - 1]);
      StepKeepsProgress(Run(s, docs, digest, es[..|es| - 1]), docs, digest, es[|es| - 1]);
    }
  }

  /** A row that could be deleted: proved by a strict receipt for its day and its table, with a receipt for the
      other table as well, and older than every cutoff used. */
  ghost predicate Archived(docs: seq<Document>, digest: Digest, t: Table, cutoff: int, x: Row) {
    && PartOfArchive(docs, digest, t, DayOf(x.ts), multiset{x})
    && DayOf(x.ts) in Receipts(docs, Other(t))
    && x.ts < cutoff
  }

  ghost predicate CutoffsBelow(es: seq<Event>, cutoff: int) {
    forall i :: 0 <= i < |es| && es[i].Batch? ==> es[i].cutoff <= cutoff
  }

  ghost predicate GoneIsArchived(s: State, docs: seq<Document>, digest: Digest, cutoff: int) {
    forall t, x :: x in s.gone.Of(t) ==> Archived(docs, digest, t, cutoff, x)
  }

  lemma StepDeletesArchived(s: State, docs: seq<Document>, digest: Digest, e: Event, cutoff: int)
    requires Injective(digest) && ProgressOk(s, docs, digest)
    requires GoneIsArchived(s, docs, digest, cutoff) && (e.Batch? ==> e.cutoff <= cutoff)
    ensures GoneIsArchived(Step(s, docs, digest, e), docs, digest, cutoff)
  {
    hide Receipts, Floor, BatchCutoff, IsPick, PartOfArchive, DayOf, DayPart, ProofOf, ProgressOk, Injective;
    var after := Step(s, docs, digest, e);
    if after.gone != s.gone {
      BatchDeletesArchived(s, docs, digest, e.table, e.cutoff, e.picked);
      forall t: Table, x | x in after.gone.Of(t)
        ensures Archived(docs, digest, t, cutoff, x)
      {
        if x !in s.gone.Of(t) {
          assert t == e.table && x in e.picked;
          SmallerPart(docs, digest, t, Floor(s.store).value, e.picked, multiset{x});
        }
      }
    }
  }

  /** For every run of inserts and batches, with or without failing records: everything ever deleted is archived. */
  lemma {:induction false} OnlyArchivedIsDeleted(s: State, docs: seq<Document>, digest: Digest, es: seq<Event>, cutoff: int)
    requires Injective(digest) && ProgressOk(s, docs, digest) && GoneIsArchived(s, docs, digest, cutoff)
    requires CutoffsBelow(es, cutoff)
    ensures GoneIsArchived(Run(s, docs, digest, es), docs, digest, cutoff)
    decreases |es|
  {
    if es == [] {
    } else {
      hide ProgressOk, Step, Injective, Archived;
      OnlyArchivedIsDeleted(s, docs, digest, es[..|es| - 1], cutoff);
      RunKeepsProgress(s, docs, digest, es[..|es| - 1]);
      StepDeletesArchived(Run(s, docs, digest, es[..|es| - 1]), docs, digest, es[|es| - 1], cutoff);
    }
  }

  /** What a receipt in use was: a strict file that names that table and day. */
  lemma {:induction false} ReceiptsAreStrict(docs: seq<Document>, t: Table, day: int)
    requires day in Receipts(docs, t)
    ensures exists d :: d in docs && Strict(d, t) && d.day == Some(day) && Receipts(docs, t)[day] == Proof(d.sourceRows, d.sourceSha)
    decreases |docs|
  {
    var front, d := docs[..|docs| - 1], docs[|docs| - 1];
    if !(Strict(d, t) && d.day.value == day) {
      hide Strict;
      ReceiptsAreStrict(front, t, day);
    } else {
      assert d in docs;
    }
  }

  // ---- Conservation ----

  ghost function Inserted(es: seq<Event>, t: Table): Rows
    decreases |es|
  {
    if es == [] then multiset{}
    else
      var e := es[|es| - 1];
      Inserted(es[..|es| - 1], t) + if e.Insert? && e.table == t then e.rows else multiset{}
  }

  lemma StepConserves(s: State, docs: seq<Document>, digest: Digest, e: Event, t: Table)
    ensures var r := Step(s, docs, digest, e);
            r.store.Of(t) + r.gone.Of(t) ==
              s.store.Of(t) + s.gone.Of(t) + if e.Insert? && e.table == t then e.rows else multiset{}
  {
    hide BatchCutoff, Floor, DayPart;
  }

  /** No row is lost or made: what is left and what is gone is what there was and what arrived. */
  lemma {:induction false} RowsAreConserved(s: State, docs: seq<Document>, digest: Digest, es: seq<Event>, t: Table)
    ensures var r := Run(s, docs, digest, es);
            r.store.Of(t) + r.gone.Of(t) == s.store.Of(t) + s.gone.Of(t) + Inserted(es, t)
    decreases |es|
  {
    if es == [] {
    } else {
      hide Step;
      RowsAreConserved(s, docs, digest, es[..|es| - 1], t);
      StepConserves(Run(s, docs, digest, es[..|es| - 1]), docs, digest, es[|es| - 1], t);
    }
  }

  // ---- Exactly once ----

  /** When every record is written, the days' progress accounts for all that is gone: the record is the archive
      less what is gone. */
  ghost predicate Accounted(s: State, docs: seq<Document>, digest: Digest, t: Table, day: int) {
    if (t, day) in s.progress then
      exists c :: && IsArchive(docs, digest, t, day, c) && DayPart(s.gone.Of(t), day) <= c
                  && s.progress[(t, day)] == ProofOf(digest, t, c - DayPart(s.gone.Of(t), day))
    else DayPart(s.gone.Of(t), day) == multiset{}
  }

  ghost predicate AllAccounted(s: State, docs: seq<Document>, digest: Digest) {
    forall t, day :: Accounted(s, docs, digest, t, day)
  }

  lemma MatchedArchive(s: State, docs: seq<Document>, digest: Digest, t: Table, day: int) returns (c: Rows)
    requires Injective(digest) && Accounted(s, docs, digest, t, day)
    requires day in Common(docs) && Matches(s.store, docs, s.progress, digest, t, day)
    ensures IsArchive(docs, digest, t, day, c) && DayPart(s.gone.Of(t), day) <= c
    ensures DayPart(s.store.Of(t), day) == c - DayPart(s.gone.Of(t), day)
  {
    hide DayPart, Receipts;
    if (t, day) in s.progress {
      c :| && IsArchive(docs, digest, t, day, c) && DayPart(s.gone.Of(t), day) <= c
           && s.progress[(t, day)] == ProofOf(digest, t, c - DayPart(s.gone.Of(t), day));
      assert digest(t, c - DayPart(s.gone.Of(t), day)) == digest(t, DayPart(s.store.Of(t), day));
    } else {
      c := DayPart(s.store.Of(t), day);
    }
  }

  lemma DayPartOfMore(m: Rows, picked: Rows, day: int)
    requires forall x :: x in picked ==> DayOf(x.ts) == day
    ensures DayPart(m + picked, day) == DayPart(m, day) + picked
    ensures forall d :: d != day ==> DayPart(m + picked, d) == DayPart(m, d)
  {
    hide DayOf, DayPart;
    forall d | d != day
      ensures DayPart(m + picked, d) == DayPart(m, d)
    {}
  }

  lemma BatchAccountsItsDay(s: State, docs: seq<Document>, digest: Digest, t: Table, day: int, picked: Rows)
    requires Injective(digest) && Accounted(s, docs, digest, t, day)
    requires day in Common(docs) && Matches(s.store, docs, s.progress, digest, t, day)
    requires picked <= s.store.Of(t) && picked <= DayPart(s.store.Of(t), day) && forall x :: x in picked ==> DayOf(x.ts) == day
    ensures Accounted(Recorded(Deleted(s, t, picked), digest, t, day), docs, digest, t, day)
  {
    hide Common, Matches, Receipts, DayOf, DayPart, IsArchive, Injective, Accounted;
    var c := MatchedArchive(s, docs, digest, t, day);
    DayPartOfLess(s.store.Of(t), picked, day);
    DayPartOfMore(s.gone.Of(t), picked, day);
    Regroup(c, DayPart(s.gone.Of(t), day), picked);
    AccountedBy(Recorded(Deleted(s, t, picked), digest, t, day), docs, digest, t, day, c);
  }

  lemma AccountedBy(s: State, docs: seq<Document>, digest: Digest, t: Table, day: int, c: Rows)
    requires IsArchive(docs, digest, t, day, c) && DayPart(s.gone.Of(t), day) <= c
    requires (t, day) in s.progress && s.progress[(t, day)] == ProofOf(digest, t, DayPart(s.store.Of(t), day))
    requires DayPart(s.store.Of(t), day) == c - DayPart(s.gone.Of(t), day)
    ensures Accounted(s, docs, digest, t, day)
  {
    hide DayPart, IsArchive, ProofOf;
  }

  lemma BatchAccounts(s: State, docs: seq<Document>, digest: Digest, t: Table, cutoff: int, picked: Rows)
    requires Injective(digest) && AllAccounted(s, docs, digest)
    requires picked != multiset{}
    requires var bc := BatchCutoff(s, docs, digest, cutoff); bc.Some? && IsPick(s.store.Of(t), bc.value, picked)
    ensures Floor(s.store).Some? && AllAccounted(Recorded(Deleted(s, t, picked), digest, t, Floor(s.store).value), docs, digest)
  {
    hide Common, Matches, Receipts, Floor, BatchCutoff, IsPick, DayOf, DayPart, IsArchive, Accounted, Injective;
    PickedFromFloor(s, docs, digest, t, cutoff, picked);
    var day := Floor(s.store).value;
    var after := Recorded(Deleted(s, t, picked), digest, t, day);
    PickIsPart(s.store.Of(t), BatchCutoff(s, docs, digest, cutoff).value, picked);
    DayPartOfMore(s.gone.Of(t), picked, day);
    assert Accounted(s, docs, digest, t, day);
    BatchAccountsItsDay(s, docs, digest, t, day, picked);
    hide ProofOf;
    forall u: Table, d
      ensures Accounted(after, docs, digest, u, d)
    {
      if (u, d) != (t, day) {
        assert DayPart(after.gone.Of(u), d) == DayPart(s.gone.Of(u), d);
        SameAccount(s, after, docs, digest, u, d);
      }
    }
  }

  lemma SameAccount(b: State, c: State, docs: seq<Document>, digest: Digest, t: Table, day: int)
    requires Accounted(b, docs, digest, t, day) && DayPart(c.gone.Of(t), day) == DayPart(b.gone.Of(t), day)
    requires (t, day) in c.progress <==> (t, day) in b.progress
    requires (t, day) in b.progress ==> c.progress[(t, day)] == b.progress[(t, day)]
    ensures Accounted(c, docs, digest, t, day)
  {
    hide DayPart, IsArchive, ProofOf;
  }

  lemma Regroup(c: Rows, gone: Rows, picked: Rows)
    requires gone <= c && picked <= c - gone
    ensures gone + picked <= c && c - (gone + picked) == c - gone - picked
  {}

  /** Every batch that picks something is recorded. */
  ghost predicate NoLostRecord(es: seq<Event>) {
    forall i :: 0 <= i < |es| && es[i].Batch? ==> es[i].recorded || es[i].picked == multiset{}
  }

  lemma {:induction false} RunAccounts(s: State, docs: seq<Document>, digest: Digest, es: seq<Event>)
    requires Injective(digest) && AllAccounted(s, docs, digest) && NoLostRecord(es)
    ensures AllAccounted(Run(s, docs, digest, es), docs, digest)
    decreases |es|
  {
    if es != [] {
      RunAccounts(s, docs, digest, es[..|es| - 1]);
      hide BatchCutoff, IsPick, IsArchive, DayPart, ProofOf, Injective, Floor;
      var b, e := Run(s, docs, digest, es[..|es| - 1]), es[|es| - 1];
      if e.Batch? && e.picked != multiset{} {
        var bc := BatchCutoff(b, docs, digest, e.cutoff);
        if bc.Some? && IsPick(b.store.Of(e.table), bc.value, e.picked) {
          BatchAccounts(b, docs, digest, e.table, e.cutoff, e.picked);
        }
      } else {
        SameAccounts(b, Step(b, docs, digest, e), docs, digest);
      }
    }
  }

  lemma SameAccounts(b: State, c: State, docs: seq<Document>, digest: Digest)
    requires AllAccounted(b, docs, digest) && c.gone == b.gone && c.progress == b.progress
    ensures AllAccounted(c, docs, digest)
  {
    hide DayPart, IsArchive, ProofOf;
    hide Accounted;
    forall t, day
      ensures Accounted(c, docs, digest, t, day)
    {
      SameAccount(b, c, docs, digest, t, day);
    }
  }

  /** What is gone of any day, over the whole run and counting repeated rows, is part of the archive of that day. */
  ghost predicate Within(s: State, docs: seq<Document>, digest: Digest) {
    forall t, day :: DayPart(s.gone.Of(t), day) != multiset{} ==> PartOfArchive(docs, digest, t, day, DayPart(s.gone.Of(t), day))
  }

  lemma AccountedIsWithin(s: State, docs: seq<Document>, digest: Digest)
    requires AllAccounted(s, docs, digest)
    ensures Within(s, docs, digest)
  {
    hide DayPart, IsArchive, ProofOf;
    forall t, day | DayPart(s.gone.Of(t), day) != multiset{}
      ensures PartOfArchive(docs, digest, t, day, DayPart(s.gone.Of(t), day))
    {
      assert Accounted(s, docs, digest, t, day);
    }
  }

  /** If every record is written, no archived row is deleted twice. */
  lemma GoneIsPartOfArchive(s: State, docs: seq<Document>, digest: Digest, es: seq<Event>)
    requires Injective(digest) && NoLostRecord(es) && AllAccounted(s, docs, digest)
    ensures Within(Run(s, docs, digest, es), docs, digest)
  {
    hide Accounted, Run, Injective, Within, AllAccounted;
    RunAccounts(s, docs, digest, es);
    AccountedIsWithin(Run(s, docs, digest, es), docs, digest);
  }

  lemma FreshIsAccounted(store: Store, docs: seq<Document>, digest: Digest)
    ensures AllAccounted(State(store, map[], Store(multiset{}, multiset{})), docs, digest)
  {}

  // ---- A record that is lost ----

  lemma {:induction false} RunJoins(s: State, docs: seq<Document>, digest: Digest, es: seq<Event>, fs: seq<Event>)
    ensures Run(s, docs, digest, es + fs) == Run(Run(s, docs, digest, es), docs, digest, fs)
    decreases |fs|
  {
    if fs == [] {
      assert es + fs == es;
    } else {
      hide Step;
      RunJoins(s, docs, digest, es, fs[..|fs| - 1]);
      assert (es + fs)[..|es + fs| - 1] == es + fs[..|fs| - 1];
    }
  }

  lemma RunOne(s: State, docs: seq<Document>, digest: Digest, e: Event)
    ensures Run(s, docs, digest, [e]) == Step(s, docs, digest, e)
  {
    hide Step;
    assert [e][..0] == [];
  }

  lemma {:induction false} TakeSome(m: Rows, n: nat) returns (p: Rows)
    ensures p <= m && |p| == if n <= |m| then n else |m|
    decreases n
  {
    if n == 0 || m == multiset{} {
      p := multiset{};
    } else {
      var x :| x in m;
      var q := TakeSome(m - multiset{x}, n - 1);
      p := q + multiset{x};
    }
  }

  lemma SameSize(p: Rows, m: Rows)
    requires p <= m && |p| == |m|
    ensures p == m
  {
    assert m == p + (m - p);
  }

  lemma LaterThanDay(ts: int, day: int)
    requires DayOf(ts) > day
    ensures ts >= DayStart(day + 1)
  {}

  lemma WithinDay(ts: int, day: int)
    requires DayOf(ts) == day
    ensures ts < DayStart(day + 1)
  {}

  lemma DayStartsGrow(a: int, b: int)
    requires a <= b
    ensures DayStart(a) <= DayStart(b)
  {}

  /** From the first day any rows may be picked, as many as a batch takes. */
  lemma DayIsPickable(m: Rows, day: int, picked: Rows)
    requires forall x :: x in m ==> day <= DayOf(x.ts)
    requires var rest := DayPart(m, day);
             picked <= rest && |picked| == if DELETE_BATCH <= |rest| then DELETE_BATCH else |rest|
    ensures IsPick(m, DayStart(day + 1), picked)
  {
    hide DayPart, DayOf, DayStart;
    var rest := DayPart(m, day);
    forall x | x in picked
      ensures x.ts < DayStart(day + 1)
    {
      assert x in rest;
      WithinDay(x.ts, day);
    }
    if |picked| < DELETE_BATCH {
      SameSize(picked, rest);
      forall x | x in m - picked
        ensures x.ts >= DayStart(day + 1)
      {
        assert x in m && DayOf(x.ts) != day;
        LaterThanDay(x.ts, day);
      }
    }
  }

  lemma DayCutoff(u: State, docs: seq<Document>, digest: Digest, day: int)
    requires Floor(u.store) == Some(day) && RemoteCutoff(u.store, docs, u.progress, digest).Allowed?
    ensures BatchCutoff(u, docs, digest, DayStart(day + 1)) == Some(DayStart(day + 1))
  {
    hide Matches, Common, DayStart, Floor, RemoteCutoff;
    var end := AllowedHasEnd(u.store, docs, u.progress, digest);
    AllowedMeans(u.store, docs, u.progress, digest, end);
    DayStartsGrow(day + 1, end);
  }

  lemma FloorIs(s: Store, t: Table, day: int)
    requires DayPart(s.Of(t), day) != multiset{}
    requires forall x :: x in s.trades || x in s.bookTop ==> day <= DayOf(x.ts)
    ensures Floor(s) == Some(day)
  {
    hide DayOf, DayPart;
    FloorIsFirst(s);
    hide Floor;
    var x :| x in DayPart(s.Of(t), day);
    assert x in s.Of(t) && DayOf(x.ts) == day;
    assert s.Of(t) == s.trades || s.Of(t) == s.bookTop;
    var f :| DayPart(s.Of(f), Floor(s).value) != multiset{};
    var y :| y in DayPart(s.Of(f), Floor(s).value);
    assert y in s.Of(f) && DayOf(y.ts) == Floor(s).value;
    assert s.Of(f) == s.trades || s.Of(f) == s.bookTop;
  }

  /** A recorded batch changes no other day, and leaves its own as it must be. */
  lemma StillMatches(u: State, docs: seq<Document>, digest: Digest, t: Table, day: int, picked: Rows, f: Table, d: int)
    requires picked <= u.store.Of(t) && forall x :: x in picked ==> DayOf(x.ts) == day
    requires d in Common(docs) && Matches(u.store, docs, u.progress, digest, f, d)
    ensures var v := Recorded(Deleted(u, t, picked), digest, t, day); Matches(v.store, docs, v.progress, digest, f, d)
  {
    hide Common, DayOf, Receipts, DayPart, ProofOf;
    DayPartOfLess(u.store.Of(t), picked, day);
  }

  /** After a recorded batch that leaves rows of its day, the next batch is allowed too. */
  lemma StillAllowed(u: State, docs: seq<Document>, digest: Digest, t: Table, day: int, picked: Rows)
    requires Floor(u.store) == Some(day) && RemoteCutoff(u.store, docs, u.progress, digest).Allowed?
    requires picked <= u.store.Of(t) && forall x :: x in picked ==> DayOf(x.ts) == day
    requires DayPart(u.store.Of(t) - picked, day) != multiset{}
    ensures var v := Recorded(Deleted(u, t, picked), digest, t, day);
            Floor(v.store) == Some(day) && RemoteCutoff(v.store, docs, v.progress, digest).Allowed?
  {
    hide Common, DayOf, DayPart, Matches, RemoteCutoff, ProofOf;
    var v := Recorded(Deleted(u, t, picked), digest, t, day);
    FloorIsFirst(u.store);
    hide Floor;
    assert forall x :: x in u.store.Of(t) - picked ==> x in u.store.Of(t);
    FloorIs(v.store, t, day);
    var end := AllowedHasEnd(u.store, docs, u.progress, digest);
    AllowedMeans(u.store, docs, u.progress, digest, end);
    forall d | day <= d < end
      ensures d in Common(docs) && Matches(v.store, docs, v.progress, digest, Trades, d) && Matches(v.store, docs, v.progress, digest, BookTop, d)
    {
      StillMatches(u, docs, digest, t, day, picked, Trades, d);
      StillMatches(u, docs, digest, t, day, picked, BookTop, d);
    }
    AllowedMeans(v.store, docs, v.progress, digest, end);
  }

  /** One recorded batch of the first day. */
  lemma DayStep(u: State, docs: seq<Document>, digest: Digest, t: Table, day: int) returns (picked: Rows)
    requires Floor(u.store) == Some(day) && RemoteCutoff(u.store, docs, u.progress, digest).Allowed?
    requires DayPart(u.store.Of(t), day) != multiset{}
    ensures picked != multiset{} && picked <= u.store.Of(t) && picked <= DayPart(u.store.Of(t), day)
    ensures forall x :: x in picked ==> DayOf(x.ts) == day
    ensures Step(u, docs, digest, Batch(t, DayStart(day + 1), picked, true)) == Recorded(Deleted(u, t, picked), digest, t, day)
    ensures DayPart(u.store.Of(t) - picked, day) == DayPart(u.store.Of(t), day) - picked
    ensures DayPart(u.gone.Of(t) + picked, day) == DayPart(u.gone.Of(t), day) + picked
  {
    hide RemoteCutoff, DayPart, DayOf, IsPick, BatchCutoff, DayStart, Recorded, Deleted;
    var rest := DayPart(u.store.Of(t), day);
    FloorIsFirst(u.store);
    hide Floor;
    picked := TakeSome(rest, DELETE_BATCH);
    assert u.store.Of(t) == u.store.trades || u.store.Of(t) == u.store.bookTop;
    DayIsPickable(u.store.Of(t), day, picked);
    PickIsPart(u.store.Of(t), DayStart(day + 1), picked);
    DayCutoff(u, docs, digest, day);
    assert |picked| > 0;
    forall x | x in picked
      ensures DayOf(x.ts) == day
    {
      assert x in rest;
    }
    DayPartOfLess(u.store.Of(t), picked, day);
    DayPartOfMore(u.gone.Of(t), picked, day);
  }

  lemma RunStarts(s: State, docs: seq<Document>, digest: Digest, e: Event, fs: seq<Event>)
    ensures Run(s, docs, digest, [e] + fs) == Run(Step(s, docs, digest, e), docs, digest, fs)
  {
    hide Step, Run;
    RunOne(s, docs, digest, e);
    RunJoins(s, docs, digest, [e], fs);
  }

  lemma OneMoreRecorded(b: Event, fs: seq<Event>)
    requires NoLostRecord(fs) && (b.Batch? ==> b.recorded)
    ensures NoLostRecord([b] + fs)
  {}

  /** A day that may be deleted can be deleted entirely, batch after batch, with every record written. */
  lemma {:induction false} DayCanBeDeleted(u: State, docs: seq<Document>, digest: Digest, t: Table, day: int) returns (es: seq<Event>)
    requires Floor(u.store) == Some(day) && RemoteCutoff(u.store, docs, u.progress, digest).Allowed?
    ensures NoLostRecord(es)
    ensures DayPart(Run(u, docs, digest, es).gone.Of(t), day) == DayPart(u.gone.Of(t), day) + DayPart(u.store.Of(t), day)
    decreases |DayPart(u.store.Of(t), day)|
  {
    hide RemoteCutoff, Floor, DayPart, DayOf, Step, DayStart, Run, Deleted, Recorded;
    var rest := DayPart(u.store.Of(t), day);
    if rest == multiset{} {
      assert NoLostRecord([]);
      es := [];
      RunNone(u, docs, digest);
    } else {
      var picked := DayStep(u, docs, digest, t, day);
      var b, v := Batch(t, DayStart(day + 1), picked, true), Recorded(Deleted(u, t, picked), digest, t, day);
      AfterBatch(u, digest, t, day, picked);
      PartsSum(DayPart(u.gone.Of(t), day), rest, picked);
      var fs := [];
      assert NoLostRecord([]);
      hide NoLostRecord;
      if rest - picked != multiset{} {
        StillAllowed(u, docs, digest, t, day, picked);
        fs := DayCanBeDeleted(v, docs, digest, t, day);
      } else {
        RunNone(v, docs, digest);
      }
      RunStarts(u, docs, digest, b, fs);
      OneMoreRecorded(b, fs);
      es := [b] + fs;
    }
  }

  lemma AfterBatch(u: State, digest: Digest, t: Table, day: int, picked: Rows)
    ensures var v := Recorded(Deleted(u, t, picked), digest, t, day);
            v.store.Of(t) == u.store.Of(t) - picked && v.gone.Of(t) == u.gone.Of(t) + picked
  {}

  lemma PartsSum(gone: Rows, rest: Rows, picked: Rows)
    requires picked <= rest && picked != multiset{}
    ensures |rest - picked| < |rest| && gone + picked + (rest - picked) == gone + rest
    ensures rest - picked == multiset{} ==> picked == rest
  {
    assert rest == picked + (rest - picked);
  }

  lemma RunNone(s: State, docs: seq<Document>, digest: Digest)
    ensures Run(s, docs, digest, []) == s
  {}

  /** The exact condition, for every batch that takes place and whatever was accounted for before it: in every future
      in which no record is lost, what is gone of each day stays within its archive, if and only if this batch's
      record is written or it deletes nothing. */
  lemma LostRecordExactly(s: State, docs: seq<Document>, digest: Digest, t: Table, cutoff: int, picked: Rows, recorded: bool)
    requires Injective(digest) && AllAccounted(s, docs, digest)
    requires var bc := BatchCutoff(s, docs, digest, cutoff); bc.Some? && IsPick(s.store.Of(t), bc.value, picked)
    ensures var after := Step(s, docs, digest, Batch(t, cutoff, picked, recorded));
            (forall es :: NoLostRecord(es) ==> Within(Run(after, docs, digest, es), docs, digest)) <==>
            recorded || picked == multiset{}
  {
    hide AllAccounted, Injective, Within, BatchCutoff, IsPick, Run;
    var b := Batch(t, cutoff, picked, recorded);
    var after := Step(s, docs, digest, b);
    if recorded || picked == multiset{} {
      assert NoLostRecord([b]);
      RunAccounts(s, docs, digest, [b]);
      RunOne(s, docs, digest, b);
      forall es | NoLostRecord(es)
        ensures Within(Run(after, docs, digest, es), docs, digest)
      {
        GoneIsPartOfArchive(after, docs, digest, es);
      }
    } else {
      var es := LostRecordOverruns(s, docs, digest, t, cutoff, picked);
    }
  }

  /** Rows equal to those of the lost record arrive; the day is as before, and is deleted from its beginning. */
  lemma LostRecordOverruns(s: State, docs: seq<Document>, digest: Digest, t: Table, cutoff: int, picked: Rows) returns (es: seq<Event>)
    requires Injective(digest) && AllAccounted(s, docs, digest) && picked != multiset{}
    requires var bc := BatchCutoff(s, docs, digest, cutoff); bc.Some? && IsPick(s.store.Of(t), bc.value, picked)
    ensures NoLostRecord(es)
    ensures !Within(Run(Step(s, docs, digest, Batch(t, cutoff, picked, false)), docs, digest, es), docs, digest)
  {
    hide AllAccounted, Injective, IsPick, Run, DayPart, Floor, Matches, RemoteCutoff, IsArchive, DayOf, Within, Step, BatchCutoff;
    var day := LostAndReturned(s, docs, digest, t, cutoff, picked);
    var b, i := Batch(t, cutoff, picked, false), Event.Insert(t, picked);
    var after, again := Step(s, docs, digest, b), s.(gone := s.gone.With(t, s.gone.Of(t) + picked));
    var fs := DayCanBeDeleted(again, docs, digest, t, day);
    RunStarts(after, docs, digest, i, fs);
    es := [i] + fs;
    DayPartOfMore(s.gone.Of(t), picked, day);
    TheAccount(s, docs, digest, t, day);
    var c := MatchedArchive(s, docs, digest, t, day);
    TooMany(docs, digest, t, day, c, DayPart(s.gone.Of(t), day), DayPart(s.store.Of(t), day), picked);
    NotWithin(Run(after, docs, digest, es), docs, digest, t, day);
  }

  /** The rows of a lost record come back: the day is allowed as before, only more is gone. */
  lemma LostAndReturned(s: State, docs: seq<Document>, digest: Digest, t: Table, cutoff: int, picked: Rows) returns (day: int)
    requires var bc := BatchCutoff(s, docs, digest, cutoff); bc.Some? && IsPick(s.store.Of(t), bc.value, picked)
    ensures Floor(s.store) == Some(day) && RemoteCutoff(s.store, docs, s.progress, digest).Allowed?
    ensures day in Common(docs) && Matches(s.store, docs, s.progress, digest, t, day)
    ensures forall x :: x in picked ==> DayOf(x.ts) == day
    ensures Step(Step(s, docs, digest, Batch(t, cutoff, picked, false)), docs, digest, Insert(t, picked)) ==
            s.(gone := s.gone.With(t, s.gone.Of(t) + picked))
  {
    hide IsPick, DayPart, Floor, Matches, RemoteCutoff, DayOf, Common;
    PickedFromFloor(s, docs, digest, t, cutoff, picked);
    day := Floor(s.store).value;
    assert t == Trades || t == BookTop;
    PickIsPart(s.store.Of(t), BatchCutoff(s, docs, digest, cutoff).value, picked);
    ReturnedRows(s, docs, digest, t, picked);
  }

  lemma TheAccount(s: State, docs: seq<Document>, digest: Digest, t: Table, day: int)
    requires AllAccounted(s, docs, digest)
    ensures Accounted(s, docs, digest, t, day)
  {
    hide Accounted;
  }

  lemma ReturnedRows(s: State, docs: seq<Document>, digest: Digest, t: Table, picked: Rows)
    requires picked <= s.store.Of(t)
    ensures Step(Deleted(s, t, picked), docs, digest, Insert(t, picked)) == s.(gone := s.gone.With(t, s.gone.Of(t) + picked))
  {
    assert s.store.Of(t) - picked + picked == s.store.Of(t);
  }

  /** Only one content has the proof of a receipt, and it is smaller. */
  lemma TooMany(docs: seq<Document>, digest: Digest, t: Table, day: int, c: Rows, gone: Rows, rest: Rows, picked: Rows)
    requires Injective(digest) && IsArchive(docs, digest, t, day, c) && gone <= c && rest == c - gone && picked != multiset{}
    ensures !PartOfArchive(docs, digest, t, day, gone + picked + rest)
  {
    assert c == gone + rest;
    hide Receipts;
    if PartOfArchive(docs, digest, t, day, gone + picked + rest) {
      var d :| IsArchive(docs, digest, t, day, d) && gone + picked + rest <= d;
      assert digest(t, c) == digest(t, d);
      CountGrows(gone + picked + rest, d);
    }
  }

  lemma NotWithin(s: State, docs: seq<Document>, digest: Digest, t: Table, day: int)
    requires DayPart(s.gone.Of(t), day) != multiset{} && !PartOfArchive(docs, digest, t, day, DayPart(s.gone.Of(t), day))
    ensures !Within(s, docs, digest)
  {
    hide DayPart, PartOfArchive;
  }

  /** Not so when a record fails: the archived row is deleted, an equal one arrives, and since nothing says that
      the day was already begun, that one is deleted against the same receipt. */
  lemma FailedRecordDeletesTwice(docs: seq<Document>, digest: Digest, x: Row)
    requires IsArchive(docs, digest, Trades, DayOf(x.ts), multiset{x})
    requires IsArchive(docs, digest, BookTop, DayOf(x.ts), multiset{})
    requires DayOf(x.ts) + 1 !in Common(docs)
    ensures var s := State(Store(multiset{x}, multiset{}), map[], Store(multiset{}, multiset{}));
            var b := Batch(Trades, x.ts + 1, multiset{x}, false);
            Run(s, docs, digest, [b, Insert(Trades, multiset{x}), b]).gone.Of(Trades) == multiset{x, x}
  {
    hide Receipts, DayOf, Common;
    var s := State(Store(multiset{x}, multiset{}), map[], Store(multiset{}, multiset{}));
    var b, i := Batch(Trades, x.ts + 1, multiset{x}, false), Insert(Trades, multiset{x});
    var r := State(Store(multiset{x}, multiset{}), map[], Store(multiset{x}, multiset{}));
    LoneRowGoes(docs, digest, x, s);
    LoneRowGoes(docs, digest, x, r);
    assert [b, i, b][..2] == [b, i] && [b, i][..1] == [b] && [b][..0] == [];
    hide Step;
    assert Run(s, docs, digest, [b]) == Step(s, docs, digest, b);
    var afterB := Run(s, docs, digest, [b]);
    assert Run(s, docs, digest, [b, i]) == Step(afterB, docs, digest, i);
    InsertAdds(afterB, docs, digest, x);
    assert Run(s, docs, digest, [b, i]) == r;
    assert Run(s, docs, digest, [b, i, b]) == Step(r, docs, digest, b);
  }

  lemma InsertAdds(s: State, docs: seq<Document>, digest: Digest, x: Row)
    ensures Step(s, docs, digest, Insert(Trades, multiset{x})) ==
              State(Store(s.store.trades + multiset{x}, s.store.bookTop), s.progress, s.gone)
  {}

  lemma LoneRowGoes(docs: seq<Document>, digest: Digest, x: Row, s: State)
    requires IsArchive(docs, digest, Trades, DayOf(x.ts), multiset{x})
    requires IsArchive(docs, digest, BookTop, DayOf(x.ts), multiset{})
    requires DayOf(x.ts) + 1 !in Common(docs)
    requires s.store == Store(multiset{x}, multiset{}) && s.progress == map[]
    ensures Step(s, docs, digest, Batch(Trades, x.ts + 1, multiset{x}, false)) ==
              State(Store(multiset{}, multiset{}), map[], Store(s.gone.trades + multiset{x}, s.gone.bookTop))
  {
    hide Receipts, Common;
    var day := DayOf(x.ts);
    FloorIsFirst(s.store);
    assert x in s.store.Of(Trades);
    assert Floor(s.store) == Some(day) by {
      var t :| DayPart(s.store.Of(t), Floor(s.store).value) != multiset{};
      var y :| y in DayPart(s.store.Of(t), Floor(s.store).value);
      assert y in s.store.Of(t) && y == x;
    }
    assert DayPart(s.store.Of(Trades), day) == multiset{x};
    assert DayPart(s.store.Of(BookTop), day) == multiset{};
    hide Floor;
    AllowedMeans(s.store, docs, s.progress, digest, day + 1);
    assert x.ts < DayStart(day + 1);
    assert BatchCutoff(s, docs, digest, x.ts + 1) == Some(x.ts + 1);
  }

  // ---- Late rows ----

  /** A day that holds more rows than it may. */
  ghost predicate Overfull(s: State, docs: seq<Document>, t: Table, day: int) {
    day in Common(docs) && |DayPart(s.store.Of(t), day)| > Expected(docs, s.progress, t, day).rows
  }

  lemma CountGrows(m: Rows, n: Rows)
    requires m <= n
    ensures |m| <= |n|
  {
    assert n == m + (n - m);
  }

  lemma OverfullStays(s: State, docs: seq<Document>, digest: Digest, t: Table, day: int, e: Event)
    requires Overfull(s, docs, t, day)
    ensures var after := Step(s, docs, digest, e);
            && Overfull(after, docs, t, day)
            && forall u: Table :: DayPart(after.gone.Of(u), day) == DayPart(s.gone.Of(u), day)
  {
    hide Common, Receipts, Floor, BatchCutoff, IsPick, DayOf, DayPart;
    var after := Step(s, docs, digest, e);
    if e.Insert? {
      MoreOfDay(s.store.Of(e.table), e.rows, day);
      CountGrows(DayPart(s.store.Of(e.table), day), DayPart(s.store.Of(e.table) + e.rows, day));
    } else {
      var bc := BatchCutoff(s, docs, digest, e.cutoff);
      if bc.Some? && IsPick(s.store.Of(e.table), bc.value, e.picked) {
        PickedFromFloor(s, docs, digest, e.table, e.cutoff, e.picked);
        PickIsPart(s.store.Of(e.table), bc.value, e.picked);
        DeletionSpares(s, docs, digest, t, day, e);
      }
    }
  }

  lemma DeletionSpares(s: State, docs: seq<Document>, digest: Digest, t: Table, day: int, e: Event)
    requires Overfull(s, docs, t, day) && e.Batch? && Floor(s.store).Some?
    requires var floor := Floor(s.store).value;
             && floor in Common(docs) && e.picked <= s.store.Of(e.table)
             && Matches(s.store, docs, s.progress, digest, Trades, floor) && Matches(s.store, docs, s.progress, digest, BookTop, floor)
             && forall x :: x in e.picked ==> DayOf(x.ts) == floor
    ensures Floor(s.store).value != day
    ensures forall u: Table :: DayPart(Deleted(s, e.table, e.picked).gone.Of(u), day) == DayPart(s.gone.Of(u), day)
    ensures DayPart(Deleted(s, e.table, e.picked).store.Of(t), day) == DayPart(s.store.Of(t), day)
  {
    hide Common, Floor, DayOf, DayPart, Matches, Overfull;
    var floor := Floor(s.store).value;
    OverfullDoesNotMatch(s, docs, digest, t, day, floor);
    DayPartOfLess(s.store.Of(e.table), e.picked, floor);
    DayPartOfMore(s.gone.Of(e.table), e.picked, floor);
  }

  lemma OverfullDoesNotMatch(s: State, docs: seq<Document>, digest: Digest, t: Table, day: int, floor: int)
    requires Overfull(s, docs, t, day) && floor in Common(docs)
    requires Matches(s.store, docs, s.progress, digest, Trades, floor) && Matches(s.store, docs, s.progress, digest, BookTop, floor)
    ensures floor != day
  {
    hide Common, Receipts, DayPart, Expected;
    assert Matches(s.store, docs, s.progress, digest, t, floor) by {
      assert t == Trades || t == BookTop;
    }
  }

  lemma MoreOfDay(m: Rows, n: Rows, day: int)
    ensures DayPart(m, day) <= DayPart(m + n, day)
  {}

  /** A late row blocks its day for good: once a covered day holds more rows than its receipt, or its last record,
      allows, nothing of that day is deleted any more, in either table. */
  lemma {:induction false} LateRowBlocksItsDay(s: State, docs: seq<Document>, digest: Digest, t: Table, day: int, es: seq<Event>)
    requires Overfull(s, docs, t, day)
    ensures var r := Run(s, docs, digest, es);
            && Overfull(r, docs, t, day)
            && forall u: Table :: DayPart(r.gone.Of(u), day) == DayPart(s.gone.Of(u), day)
    decreases |es|
  {
    if es != [] {
      hide Overfull, Step, DayPart;
      LateRowBlocksItsDay(s, docs, digest, t, day, es[..|es| - 1]);
      OverfullStays(Run(s, docs, digest, es[..|es| - 1]), docs, digest, t, day, es[|es| - 1]);
    }
  }

  /** And any row that arrives in a day that was as it must be makes it overfull. */
  lemma LateRowOverfills(s: State, docs: seq<Document>, digest: Digest, t: Table, day: int, x: Row)
    requires day in Common(docs) && Matches(s.store, docs, s.progress, digest, t, day) && DayOf(x.ts) == day
    ensures Overfull(Step(s, docs, digest, Insert(t, multiset{x})), docs, t, day)
  {
    hide Receipts, DayOf;
    DayPartOfMore(s.store.Of(t), multiset{x}, day);
  }
}
