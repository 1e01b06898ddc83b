/** Spelling a journal row out, field after field, so that it can be read back: no two rows have the same spelling. */
module Spelling {
  import opened ContestBook

  function Strokes(n: nat): string { if n == 0 then "." else "|" + Strokes(n - 1) }

  function Text(s: string): string { Strokes(|s|) + s }

  function Number(i: int): string { if i >= 0 then "+" + Strokes(i) else "-" + Strokes(-i) }

  function SideText(s: Side): string { if s == Buy then "b" else "s" }

  function FillText(d: Detail): string
    requires d.Fill?
  {
    Number(d.order) + (Text(d.symbol) + (SideText(d.side) + (Number(d.qty) + (Number(d.price) +
    (Number(d.gross) + (Number(d.fee) + (Number(d.tax) + Number(d.cashDelta))))))))
  }

  function DetailText(d: Detail): string {
    if d.Deposit? then "d" + Number(d.amount) else "f" + FillText(d)
  }

  function Spelled(prev: string, c: Content): string {
    Text(prev) + (Text(c.ts) + (Number(c.pid) + DetailText(c.detail)))
  }

  lemma {:induction false} StrokesApart(m: nat, n: nat, x: string, y: string)
    requires Strokes(m) + x == Strokes(n) + y
    ensures m == n && x == y
  {
    var s, t := Strokes(m) + x, Strokes(n) + y;
    assert s[0] == (if m == 0 then '.' else '|') && t[0] == (if n == 0 then '.' else '|');
    if m == 0 {
      assert s[1..] == x && t[1..] == y;
    } else {
      assert s[1..] == Strokes(m - 1) + x && t[1..] == Strokes(n - 1) + y;
      StrokesApart(m - 1, n - 1, x, y);
    }
  }

  lemma TextApart(a: string, b: string, x: string, y: string)
    requires Text(a) + x == Text(b) + y
    ensures a == b && x == y
  {
    assert Text(a) + x == Strokes(|a|) + (a + x) && Text(b) + y == Strokes(|b|) + (b + y) by { hide Strokes; }
    StrokesApart(|a|, |b|, a + x, b + y);
    assert (a + x)[..|a|] == a && (b + y)[..|b|] == b && (a + x)[|a|..] == x && (b + y)[|b|..] == y;
  }

  lemma NumberAndMore(i: int, x: string)
    ensures Number(i) + x == [if i >= 0 then '+' else '-'] + (Strokes(if i >= 0 then i else -i) + x)
  {
    hide Strokes;
  }

  lemma FirstApart(c: char, d: char, x: string, y: string)
    requires [c] + x == [d] + y
    ensures c == d && x == y
  {
    assert ([c] + x)[0] == c && ([c] + x)[1..] == x && ([d] + y)[0] == d && ([d] + y)[1..] == y;
  }

  lemma NumberApart(i: int, j: int, x: string, y: string)
    requires Number(i) + x == Number(j) + y
    ensures i == j && x == y
  {
    var m, n := if i >= 0 then i else -i, if j >= 0 then j else -j;
    var c, d := if i >= 0 then '+' else '-', if j >= 0 then '+' else '-';
    NumberAndMore(i, x);
    NumberAndMore(j, y);
    hide Number, Strokes;
    FirstApart(c, d, Strokes(m) + x, Strokes(n) + y);
    StrokesApart(m, n, x, y);
  }

  lemma SideApart(a: Side, b: Side, x: string, y: string)
    requires SideText(a) + x == SideText(b) + y
    ensures a == b && x == y
  {
    var s, t := SideText(a) + x, SideText(b) + y;
    assert s[0] == t[0] && s[1..] == x && t[1..] == y;
  }

  lemma DetailApart(d: Detail, e: Detail)
    requires DetailText(d) == DetailText(e)
    ensures d == e
  {
    hide Number, FillText;
    var s, t := DetailText(d), DetailText(e);
    assert s[0] == (if d.Deposit? then 'd' else 'f') && t[0] == (if e.Deposit? then 'd' else 'f');
    if d.Deposit? {
      assert s[1..] == Number(d.amount) + "" && t[1..] == Number(e.amount) + "";
      NumberApart(d.amount, e.amount, "", "");
    } else {
      assert s[1..] == FillText(d) && t[1..] == FillText(e);
      FillApart(d, e);
    }
  }

  lemma FillApart(d: Detail, e: Detail)
    requires d.Fill? && e.Fill? && FillText(d) == FillText(e)
    ensures d == e
  {
    hide Number, Text, SideText;
    var d8, e8 := Number(d.tax) + Number(d.cashDelta), Number(e.tax) + Number(e.cashDelta);
    var d7, e7 := Number(d.fee) + d8, Number(e.fee) + e8;
    var d6, e6 := Number(d.gross) + d7, Number(e.gross) + e7;
    var d5, e5 := Number(d.price) + d6, Number(e.price) + e6;
    var d4, e4 := Number(d.qty) + d5, Number(e.qty) + e5;
    var d3, e3 := SideText(d.side) + d4, SideText(e.side) + e4;
    var d2, e2 := Text(d.symbol) + d3, Text(e.symbol) + e3;
    NumberApart(d.order, e.order, d2, e2);
    TextApart(d.symbol, e.symbol, d3, e3);
    SideApart(d.side, e.side, d4, e4);
    NumberApart(d.qty, e.qty, d5, e5);
    NumberApart(d.price, e.price, d6, e6);
    NumberApart(d.gross, e.gross, d7, e7);
    NumberApart(d.fee, e.fee, d8, e8);
    NumberApart(d.tax, e.tax, Number(d.cashDelta), Number(e.cashDelta));
    assert Number(d.cashDelta) + "" == Number(e.cashDelta) + "";
    NumberApart(d.cashDelta, e.cashDelta, "", "");
  }

  lemma SpelledApart(p: string, c: Content, q: string, d: Content)
    requires Spelled(p, c) == Spelled(q, d)
    ensures p == q && c == d
  {
    hide Number, Text, DetailText;
    TextApart(p, q, Text(c.ts) + (Number(c.pid) + DetailText(c.detail)), Text(d.ts) + (Number(d.pid) + DetailText(d.detail)));
    TextApart(c.ts, d.ts, Number(c.pid) + DetailText(c.detail), Number(d.pid) + DetailText(d.detail));
    NumberApart(c.pid, d.pid, DetailText(c.detail), DetailText(d.detail));
    DetailApart(c.detail, d.detail);
  }
}
