/** The rules of deletion written out: what a day is, what makes a receipt count, and why deletion is blocked. */
module RetentionRules {
  import opened Wrappers
  import opened Retention
  import opened RetentionProofs

  /** A day is so many microseconds. */
  lemma DaysAreDays(ts: int, day: int)
    ensures DayOf(ts) == day <==> day * 86_400_000_000 <= ts < (day + 1) * 86_400_000_000
    ensures DayStart(day) == day * 86_400_000_000
  {}

  /** A batch takes at most fifty thousand rows, older than its cutoff, and fewer only when no more are old enough. */
  lemma BatchTakes(m: Rows, cutoff: int, picked: Rows)
    ensures IsPick(m, cutoff, picked) <==>
              && picked <= m && |picked| <= 50_000 && (forall x :: x in picked ==> x.ts < cutoff)
              && (|picked| == 50_000 || forall x :: x in m && x.ts < cutoff ==> picked[x] == m[x])
  {
    forall x | x in m
      ensures picked <= m ==> (x in m - picked <==> picked[x] < m[x])
    {}
  }

  /** A text of 64 hexadecimal digits. */
  predicate IsDigest(s: string) {
    |s| == 64 && forall c :: c in s ==> c in "0123456789abcdefABCDEF"
  }

  /** The file says that a table's rows of one whole day were copied, fetched back and found the same, and that they are
      all the rows the source had of that day. */
  predicate Verifies(d: Document, t: Table, day: int) {
    && d.version == 1 && d.status == "verified" && d.objectId != ""
    && d.table == Some(t) && d.sourceTable == Some(t)
    && d.day == Some(day) && d.sourceDayText == d.dayText
    && d.sourceFrom == day * 86_400_000_000 && d.sourceTo == (day + 1) * 86_400_000_000
    && IsDigest(d.localSha) && d.remoteSha == d.localSha
    && IsDigest(d.manifestSha) && d.remoteManifestSha == d.manifestSha
    && IsDigest(d.sourceSha)
    && 0 <= d.localBytes == d.remoteBytes
    && 0 <= d.localRows == d.remoteRows == d.sourceRows
  }

  lemma HexIs(s: string)
    ensures IsSha256(s) <==> IsDigest(s)
  {
    if IsDigest(s) {
      forall i | 0 <= i < 64
        ensures IsHex(s[i])
      {
        assert s[i] in s;
      }
    }
  }

  lemma StrictVerifies(d: Document, t: Table, day: int)
    ensures Strict(d, t) && d.day == Some(day) <==> Verifies(d, t, day)
  {
    HexIs(d.localSha);
    HexIs(d.remoteSha);
    HexIs(d.manifestSha);
    HexIs(d.remoteManifestSha);
    HexIs(d.sourceSha);
    hide IsSha256, IsDigest;
  }

  lemma StrictHasDay(d: Document, t: Table)
    requires Strict(d, t)
    ensures d.day.Some?
  {}

  /** File `i` is the last that verifies the day. */
  ghost predicate LastVerifies(docs: seq<Document>, t: Table, day: int, i: nat) {
    i < |docs| && Verifies(docs[i], t, day) && forall j :: i < j < |docs| ==> !Verifies(docs[j], t, day)
  }

  /** A day has a receipt exactly when some file verifies it, and the last such file gives rows and digest. */
  lemma {:induction false} ReceiptMeans(docs: seq<Document>, t: Table, day: int)
    ensures day in Receipts(docs, t) <==> exists d :: d in docs && Verifies(d, t, day)
    ensures forall i: nat :: LastVerifies(docs, t, day, i) ==>
              day in Receipts(docs, t) && Receipts(docs, t)[day] == Proof(docs[i].sourceRows, docs[i].sourceSha)
    decreases |docs|
  {
    hide Verifies, Strict;
    if docs == [] {
    } else {
      var n := |docs| - 1;
      ReceiptMeans(docs[..n], t, day);
      assert docs == docs[..n] + [docs[n]];
      if Strict(docs[n], t) {
        StrictHasDay(docs[n], t);
      }
      StrictVerifies(docs[n], t, day);
      forall i: nat | LastVerifies(docs, t, day, i)
        ensures i == n || (!Verifies(docs[n], t, day) && LastVerifies(docs[..n], t, day, i))
      {
        assert forall j :: 0 <= j < n ==> docs[..n][j] == docs[j];
      }
    }
  }

  /** Every day from the first one up to `day` has receipts for both tables. */
  ghost predicate CoveredTo(docs: seq<Document>, first: int, day: int) {
    first <= day && forall d :: first <= d <= day ==> d in Receipts(docs, Trades) && d in Receipts(docs, BookTop)
  }

  /** Some covered day does not hold what it must. */
  ghost predicate ChangedDay(s: Store, docs: seq<Document>, progress: map<Key, Proof>, digest: Digest, first: int, day: int) {
    CoveredTo(docs, first, day) &&
    !(Matches(s, docs, progress, digest, Trades, day) && Matches(s, docs, progress, digest, BookTop, day))
  }

  lemma {:induction false} CoveredBlocks(s: Store, docs: seq<Document>, progress: map<Key, Proof>, digest: Digest,
                                         first: int, day: int, left: set<int>)
    requires left <= Common(docs) && forall d :: d >= day && d in Common(docs) ==> d in left
    requires first <= day && forall d :: first <= d < day ==>
               d in Common(docs) && Matches(s, docs, progress, digest, Trades, d) && Matches(s, docs, progress, digest, BookTop, d)
    ensures Covered(s, docs, progress, digest, day, left) == Blocked(SourceDayChanged) <==>
            exists d :: ChangedDay(s, docs, progress, digest, first, d)
    decreases left
  {
    hide Matches, Receipts;
    if day !in left {
      assert day !in Common(docs);
    } else if Matches(s, docs, progress, digest, Trades, day) && Matches(s, docs, progress, digest, BookTop, day) {
      CoveredBlocks(s, docs, progress, digest, first, day + 1, left - {day});
    } else {
      forall d | first <= d <= day
        ensures d in Receipts(docs, Trades) && d in Receipts(docs, BookTop)
      {
        assert d in Common(docs);
      }
      assert ChangedDay(s, docs, progress, digest, first, day);
    }
  }

  /** Why deletion is blocked: there are no rows; the first day with rows lacks a receipt; or a covered day changed. */
  lemma BlockedMeans(s: Store, docs: seq<Document>, progress: map<Key, Proof>, digest: Digest)
    ensures var c, floor := RemoteCutoff(s, docs, progress, digest), Floor(s);
            && (c == Blocked(NoSourceRows) <==> s.trades == multiset{} && s.bookTop == multiset{})
            && (c == Blocked(MissingRemoteCoverage) <==>
                  floor.Some? && !(floor.value in Receipts(docs, Trades) && floor.value in Receipts(docs, BookTop)))
            && (c == Blocked(SourceDayChanged) <==>
                  floor.Some? && exists d :: ChangedDay(s, docs, progress, digest, floor.value, d))
            && c != Blocked(SourceFloorChanged)
  {
    hide Matches, Receipts, Floor;
    FloorIsFirst(s);
    if Floor(s).Some? && Floor(s).value in Common(docs) {
      CoveredMeans(s, docs, progress, digest, Floor(s).value, Common(docs));
      CoveredBlocks(s, docs, progress, digest, Floor(s).value, Floor(s).value, Common(docs));
    } else if Floor(s).Some? {
      assert forall d :: !ChangedDay(s, docs, progress, digest, Floor(s).value, d);
    }
  }
}
