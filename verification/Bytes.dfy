/** Bytes, network byte order and the machine-word view of a byte. */
module Bytes {

  type byte = n: nat | n < 0x100

  type u16 = n: nat | n < 0x1_0000

  type u64 = n: nat | n < 0x1_0000_0000_0000_0000

  function Pow256(n: nat): nat {
    if n == 0 then 1 else 256 * Pow256(n - 1)
  }

  /** The value of a big-endian field. */
  function Be(s: seq<byte>): (v: nat)
    ensures v < Pow256(|s|)
  {
    if s == [] then 0 else Be(s[..|s| - 1]) * 256 + s[|s| - 1]
  }

  /** The `n`-byte big-endian field holding `v`. */
  function ToBe(v: nat, n: nat): (s: seq<byte>)
    requires v < Pow256(n)
    ensures |s| == n
  {
    if n == 0 then [] else ToBe(v / 256, n - 1) + [v % 256]
  }

  lemma {:induction false} BeOfToBe(v: nat, n: nat)
    requires v < Pow256(n)
    ensures Be(ToBe(v, n)) == v
  {
    if n == 0 {
    } else {
      BeOfToBe(v / 256, n - 1);
      assert ToBe(v, n)[..n - 1] == ToBe(v / 256, n - 1);
    }
  }

  lemma {:induction false} ToBeOfBe(s: seq<byte>)
    ensures ToBe(Be(s), |s|) == s
  {
    if s == [] {
    } else {
      ToBeOfBe(s[..|s| - 1]);
      assert s == s[..|s| - 1] + [s[|s| - 1]];
    }
  }

  lemma Widths()
    ensures Pow256(2) == 0x1_0000 && Pow256(4) == 0x1_0000_0000 && Pow256(8) == 0x1_0000_0000_0000_0000
  {
    assert Pow256(2) == 256 * Pow256(1);
    assert Pow256(4) == 256 * (256 * Pow256(2));
    assert Pow256(8) == 256 * (256 * (256 * (256 * Pow256(4))));
  }

  // ---- A byte as a machine word ----

  lemma SuccessorFits(v: bv8)
    requires v != 255
    ensures (v + 1) as int == v as int + 1
  {}

  lemma {:induction false} WordOfByte(n: byte) returns (v: bv8)
    ensures v as int == n
  {
    if n == 0 {
      v := 0;
    } else {
      var w := WordOfByte(n - 1);
      SuccessorFits(w);
      v := w + 1;
    }
  }

  lemma ByteSurvives(n: byte)
    ensures (n as bv8) as int == n
  {
    var v := WordOfByte(n);
    assert (v as int) as bv8 == v;
  }

  /** The bytes as machine words, one each. */
  function Words(s: seq<byte>): (w: seq<bv8>)
    ensures |w| == |s|
  {
    seq(|s|, i requires 0 <= i < |s| => s[i] as bv8)
  }

  lemma WordsConcat(a: seq<byte>, b: seq<byte>)
    ensures Words(a + b) == Words(a) + Words(b)
  {}

  lemma WordsInjective(a: seq<byte>, b: seq<byte>)
    requires Words(a) == Words(b)
    ensures a == b
  {
    forall i | 0 <= i < |a|
      ensures a[i] == b[i]
    {
      assert Words(a)[i] == Words(b)[i];
      ByteSurvives(a[i]);
      ByteSurvives(b[i]);
    }
  }

  function XorWord(a: bv8, b: bv8): bv8 { a ^ b }

  /** Bitwise exclusive or of two bytes. */
  function XorByte(a: byte, k: byte): byte {
    XorWord(a as bv8, k as bv8) as int
  }

  lemma XorWordTwice(a: bv8, b: bv8)
    ensures XorWord(XorWord(a, b), b) == a
  {}

  lemma WordSurvives(v: bv8)
    ensures (v as int) as bv8 == v
  {}

  lemma XorTwice(a: byte, k: byte)
    ensures XorByte(XorByte(a, k), k) == a
  {
    hide XorWord;
    var x, y := a as bv8, k as bv8;
    WordSurvives(XorWord(x, y));
    XorWordTwice(x, y);
    ByteSurvives(a);
  }
}
