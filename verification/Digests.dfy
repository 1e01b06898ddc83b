/** Injective digests of rows exist, whatever 64-digit texts the contents in use have. */
module Digests {
  import opened Retention
  import opened RetentionProofs
  import opened Spelling

  /** The rows in some order. */
  ghost function Listing(m: Rows): (s: seq<Row>)
    ensures multiset(s) == m
    decreases |m|
  {
    if m == multiset{} then []
    else
      var x :| x in m;
      [x] + Listing(m - multiset{x})
  }

  function Lines(s: seq<Row>): string {
    if s == [] then "" else Number(s[0].ts) + (Text(s[0].data) + Lines(s[1..]))
  }

  /** A text that lists the rows; it does not look like a SHA-256. */
  ghost function Listed(m: Rows): string { Strokes(|Listing(m)|) + Lines(Listing(m)) }

  lemma {:induction false} LinesApart(s: seq<Row>, t: seq<Row>)
    requires |s| == |t| && Lines(s) == Lines(t)
    ensures s == t
    decreases |s|
  {
    if s == [] {
    } else {
      NumberApart(s[0].ts, t[0].ts, Text(s[0].data) + Lines(s[1..]), Text(t[0].data) + Lines(t[1..]));
      TextApart(s[0].data, t[0].data, Lines(s[1..]), Lines(t[1..]));
      LinesApart(s[1..], t[1..]);
      assert s == [s[0]] + s[1..] && t == [t[0]] + t[1..];
    }
  }

  lemma ListedApart(m: Rows, n: Rows)
    requires Listed(m) == Listed(n)
    ensures m == n
  {
    var s, t := Listing(m), Listing(n);
    StrokesApart(|s|, |t|, Lines(s), Lines(t));
    LinesApart(s, t);
  }

  lemma ListedIsNoSha256(m: Rows)
    ensures !IsSha256(Listed(m))
  {
    assert Strokes(|Listing(m)|)[0] in {'.', '|'};
    assert Listed(m)[0] in {'.', '|'};
  }

  /** Whatever 64-digit texts the contents in use have, as long as two contents of a table have different ones: an
      injective digest gives them those texts. */
  lemma InjectiveDigestExists(shas: map<(Table, Rows), string>)
    requires forall k :: k in shas ==> IsSha256(shas[k])
    requires forall k, l :: k in shas && l in shas && k.0 == l.0 && shas[k] == shas[l] ==> k == l
    ensures exists digest: Digest :: Injective(digest) && forall k :: k in shas ==> digest(k.0, k.1) == shas[k]
  {
    var digest: Digest := (t, m) => if (t, m) in shas then shas[(t, m)] else Listed(m);
    forall t, m, n | digest(t, m) == digest(t, n)
      ensures m == n
    {
      ListedIsNoSha256(m);
      ListedIsNoSha256(n);
      if (t, m) !in shas && (t, n) !in shas {
        ListedApart(m, n);
      }
    }
    assert Injective(digest);
  }
}
