/** Deleting only what is archived: raw rows, receipts for archived days, progress records, and one deletion batch. */
module Retention {
  import opened Numbers
  import opened Wrappers

  datatype Table = Trades | BookTop

  function Other(t: Table): Table { if t == Trades then BookTop else Trades }

  datatype Row = Row(ts: int, data: string)

  type Rows = multiset<Row>

  datatype Store = Store(trades: Rows, bookTop: Rows) {
    function Of(t: Table): Rows { if t == Trades then trades else bookTop }

    function With(t: Table, m: Rows): Store { if t == Trades then Store(m, bookTop) else Store(trades, m) }
  }

  const DAY_US: int := 86_400_000_000
  const DELETE_BATCH: nat := 50_000

  function DayOf(ts: int): int { ts / DAY_US }

  function DayStart(day: int): int { day * DAY_US }

  /** The rows of one day. */
  ghost function DayPart(m: Rows, day: int): (r: Rows)
    ensures forall x :: r[x] == if DayOf(x.ts) == day then m[x] else 0
    decreases |m|
  {
    if m == multiset{} then m
    else
      var x :| x in m;
      DayPart(m - multiset{x}, day) + if DayOf(x.ts) == day then multiset{x} else multiset{}
  }

  // ---- Receipts ----

  /** What a receipt file says; `day` is its day text read as a date. */
  datatype Document = Document(
    version: int, status: string, dayText: string, day: Option<int>, table: Option<Table>,
    localSha: string, remoteSha: string, manifestSha: string, remoteManifestSha: string, sourceSha: string,
    localBytes: int, remoteBytes: int, localRows: int, remoteRows: int, sourceRows: int,
    sourceTable: Option<Table>, sourceDayText: string, sourceFrom: int, sourceTo: int, objectId: string)

  predicate IsHex(c: char) { '0' <= c <= '9' || 'a' <= c <= 'f' || 'A' <= c <= 'F' }

  predicate IsSha256(s: string) { |s| == 64 && forall i :: 0 <= i < 64 ==> IsHex(s[i]) }

  /** A number of rows and the digest of those rows in order. */
  datatype Proof = Proof(rows: int, sha: string)

  predicate Strict(d: Document, t: Table) {
    && d.version == 1 && d.status == "verified" && d.table == Some(t) && d.day.Some?
    && IsSha256(d.localSha) && IsSha256(d.remoteSha) && IsSha256(d.manifestSha)
    && IsSha256(d.remoteManifestSha) && IsSha256(d.sourceSha)
    && d.localSha == d.remoteSha && d.manifestSha == d.remoteManifestSha
    && d.localBytes >= 0 && d.remoteBytes >= 0 && d.localRows >= 0 && d.remoteRows >= 0 && d.sourceRows >= 0
    && d.localBytes == d.remoteBytes && d.localRows == d.remoteRows && d.localRows == d.sourceRows
    && d.sourceTable == Some(t) && d.sourceDayText == d.dayText
    && d.sourceFrom == DayStart(d.day.value) && d.sourceTo == DayStart(d.day.value + 1)
    && d.objectId != ""
  }

  /** The strict receipts for one table, by day; of two for the same day the later file counts. */
  function Receipts(docs: seq<Document>, t: Table): map<int, Proof> {
    if docs == [] then map[]
    else
      var front, d := Receipts(docs[..|docs| - 1], t), docs[|docs| - 1];
      if Strict(d, t) then front[d.day.value := Proof(d.sourceRows, d.sourceSha)] else front
  }

  function Common(docs: seq<Document>): set<int> { Receipts(docs, Trades).Keys * Receipts(docs, BookTop).Keys }

  // ---- The verified range ----

  type Digest = (Table, Rows) -> string

  type Key = (Table, int)

  function ProofOf(digest: Digest, t: Table, m: Rows): Proof { Proof(|m|, digest(t, m)) }

  /** The earliest time stamp in a table. */
  ghost function Earliest(m: Rows): (r: Option<int>)
    ensures r == None <==> m == multiset{}
    ensures r.Some? ==> (exists x :: x in m && x.ts == r.value) && forall x :: x in m ==> r.value <= x.ts
    decreases |m|
  {
    if m == multiset{} then None
    else
      var x :| x in m;
      var rest := Earliest(m - multiset{x});
      assert forall y :: y in m <==> y == x || y in m - multiset{x};
      if rest.Some? && rest.value <= x.ts then rest else Some(x.ts)
  }

  function Sooner(a: Option<int>, b: Option<int>): Option<int> {
    if a.None? then b else if b.None? then a else if a.value <= b.value then a else b
  }

  function DayOfEarliest(a: Option<int>): Option<int> { if a.Some? then Some(DayOf(a.value)) else None }

  /** The earliest day with rows in either table. */
  ghost function Floor(s: Store): Option<int> {
    Sooner(DayOfEarliest(Earliest(s.trades)), DayOfEarliest(Earliest(s.bookTop)))
  }

  /** What a day must still hold: what the last recorded batch left of it, or all that was archived. */
  function Expected(docs: seq<Document>, progress: map<Key, Proof>, t: Table, day: int): Proof
    requires day in Common(docs)
  {
    if (t, day) in progress then progress[(t, day)]
    else if t == Trades then Receipts(docs, Trades)[day]
    else Receipts(docs, BookTop)[day]
  }

  ghost predicate Matches(s: Store, docs: seq<Document>, progress: map<Key, Proof>, digest: Digest, t: Table, day: int)
    requires day in Common(docs)
  {
    ProofOf(digest, t, DayPart(s.Of(t), day)) == Expected(docs, progress, t, day)
  }

  datatype Reason = NoSourceRows | MissingRemoteCoverage | SourceDayChanged | SourceFloorChanged

  datatype Cutoff = Allowed(us: int) | Blocked(reason: Reason)

  /** From `day` on, every covered day has to hold what it must. */
  ghost function Covered(s: Store, docs: seq<Document>, progress: map<Key, Proof>, digest: Digest, day: int, left: set<int>): Cutoff
    requires left <= Common(docs)
    decreases left
  {
    if day !in left then Allowed(DayStart(day))
    else if !(Matches(s, docs, progress, digest, Trades, day) && Matches(s, docs, progress, digest, BookTop, day)) then
      Blocked(SourceDayChanged)
    else Covered(s, docs, progress, digest, day + 1, left - {day})
  }

  ghost function RemoteCutoff(s: Store, docs: seq<Document>, progress: map<Key, Proof>, digest: Digest): Cutoff {
    match Floor(s)
    case None => Blocked(NoSourceRows)
    case Some(floor) =>
      if floor !in Common(docs) then Blocked(MissingRemoteCoverage)
      else Covered(s, docs, progress, digest, floor, Common(docs))
  }

  // ---- One batch ----

  datatype State = State(store: Store, progress: map<Key, Proof>, gone: Store)

  /** The rows a batch may choose to delete: at most the limit, and fewer only when no more are old enough. */
  predicate IsPick(m: Rows, cutoff: int, picked: Rows) {
    && picked <= m && |picked| <= DELETE_BATCH
    && (forall x :: x in picked ==> x.ts < cutoff)
    && (|picked| < DELETE_BATCH ==> forall x :: x in m - picked ==> x.ts >= cutoff)
  }

  ghost function BatchCutoff(s: State, docs: seq<Document>, digest: Digest, cutoff: int): Option<int> {
    match RemoteCutoff(s.store, docs, s.progress, digest)
    case Blocked(_) => None
    case Allowed(us) => Some(Min(Min(cutoff, us), DayStart(Floor(s.store).value + 1)))
  }

  ghost function Deleted(s: State, t: Table, picked: Rows): State {
    State(s.store.With(t, s.store.Of(t) - picked), s.progress, s.gone.With(t, s.gone.Of(t) + picked))
  }

  ghost function Recorded(s: State, digest: Digest, t: Table, day: int): State {
    s.(progress := s.progress[(t, day) := ProofOf(digest, t, DayPart(s.store.Of(t), day))])
  }

  /** Rows may arrive at any moment between batches; a batch deletes and then records what is left of its day, and
      that record may fail to be written. */
  datatype Event =
    | Insert(table: Table, rows: Rows)
    | Batch(table: Table, cutoff: int, picked: Rows, recorded: bool)

  ghost function Step(s: State, docs: seq<Document>, digest: Digest, e: Event): State {
    match e
    case Insert(t, rows) => s.(store := s.store.With(t, s.store.Of(t) + rows))
    case Batch(t, cutoff, picked, recorded) =>
      var bc := BatchCutoff(s, docs, digest, cutoff);
      if bc.Some? && IsPick(s.store.Of(t), bc.value, picked) then
        var after := Deleted(s, t, picked);
        if recorded && picked != multiset{} then Recorded(after, digest, t, Floor(s.store).value) else after
      else s
  }

  ghost function Run(s: State, docs: seq<Document>, digest: Digest, es: seq<Event>): State
    decreases |es|
  {
    if es == [] then s else Step(Run(s, docs, digest, es[..|es| - 1]), docs, digest, es[|es| - 1])
  }
}
