/** The CRC-32 of MDFP/1 frames: the bit-serial reference of section 8 of RFC 1952, and the
    slicing-by-8 implementation with generated tables that the gateway and the publisher use. */
module Crc32 {

  /** One shift of the division register, with the reflected generator polynomial. */
  function Step(c: bv32): bv32 {
    if c & 1 == 1 then 0xEDB88320 ^ (c >> 1) else c >> 1
  }

  // ---- Words and their bytes (hidden in proofs, so that the solver need not expand every word into bits) ----

  function Xor(a: bv32, b: bv32): bv32 { a ^ b }

  function Not(a: bv32): bv32 { !a }

  function Up(x: bv32): bv32 { x << 8 }

  function Down(x: bv32): bv32 { x >> 8 }

  function Low(x: bv32): bv32 { x & 0xFF }

  function Word(b: bv8): bv32 { b as bv32 }

  // ---- Reference: one message bit at a time, least significant bit first ----

  function LowBit(b: bv8): bv32 { (b & 1) as bv32 }

  function Halve(b: bv8): bv8 { b >> 1 }

  /** The register after the `k` low bits of `b` have entered it. */
  function Bits(c: bv32, b: bv8, k: nat): bv32
    decreases k
  {
    if k == 0 then c else Bits(Step(Xor(c, LowBit(b))), Halve(b), k - 1)
  }

  /** The register after all the bytes of `s` have entered it. */
  function Register(c: bv32, s: seq<bv8>): bv32
    decreases |s|
  {
    if s == [] then c else Register(Bits(c, s[0], 8), s[1..])
  }

  /** The checksum of `s`, continuing from the checksum `init` of what came before. */
  function Crc(s: seq<bv8>, init: bv32): bv32 {
    Not(Register(Not(init), s))
  }

  // ---- Shifting without input ----

  function Steps(c: bv32, k: nat): bv32
    decreases k
  {
    if k == 0 then c else Steps(Step(c), k - 1)
  }

  /** The register after `n` zero bytes. */
  function Shifts(c: bv32, n: nat): bv32
    decreases n
  {
    if n == 0 then c else Shifts(Steps(c, 8), n - 1)
  }

  lemma XorShiftRight(a: bv32, b: bv32)
    ensures (a ^ b) >> 1 == (a >> 1) ^ (b >> 1)
    ensures (a ^ b) & 1 == (a & 1) ^ (b & 1)
    ensures a & 1 == 0 || a & 1 == 1
    ensures b & 1 == 0 || b & 1 == 1
  {}

  lemma XorMove(p: bv32, a: bv32, b: bv32)
    ensures (p ^ a) ^ b == p ^ (a ^ b)
    ensures a ^ (p ^ b) == p ^ (a ^ b)
    ensures (p ^ a) ^ (p ^ b) == a ^ b
  {}

  lemma XorCommutes(a: bv32, b: bv32)
    ensures Xor(a, b) == Xor(b, a)
    ensures Xor(a, 0) == a
  {}

  lemma XorAssociates(a: bv32, b: bv32, c: bv32)
    ensures Xor(Xor(a, b), c) == Xor(a, Xor(b, c))
  {}

  lemma XorCancels(a: bv32, b: bv32, c: bv32)
    ensures Xor(a, c) == Xor(b, c) ==> a == b
  {}

  lemma XorLaws(a: bv32, b: bv32, c: bv32)
    ensures Xor(a, b) == Xor(b, a)
    ensures Xor(Xor(a, b), c) == Xor(a, Xor(b, c))
    ensures Xor(a, c) == Xor(b, c) ==> a == b
    ensures Xor(a, 0) == a
  {
    hide Xor;
    XorCommutes(a, b);
    XorAssociates(a, b, c);
    XorCancels(a, b, c);
  }

  lemma StepLinear(a: bv32, b: bv32)
    ensures Step(a ^ b) == Step(a) ^ Step(b)
    ensures Step(Xor(a, b)) == Xor(Step(a), Step(b))
  {
    XorShiftRight(a, b);
    XorMove(0xEDB88320, a >> 1, b >> 1);
  }

  lemma StepInjective(a: bv32, b: bv32)
    requires Step(a) == Step(b)
    ensures a == b
  {}

  lemma {:induction false} StepsLinear(a: bv32, b: bv32, k: nat)
    ensures Steps(Xor(a, b), k) == Xor(Steps(a, k), Steps(b, k))
    decreases k
  {
    hide Step, Xor;
    if k > 0 {
      StepLinear(a, b);
      StepsLinear(Step(a), Step(b), k - 1);
    }
  }

  lemma {:induction false} ShiftsLinear(a: bv32, b: bv32, n: nat)
    ensures Shifts(Xor(a, b), n) == Xor(Shifts(a, n), Shifts(b, n))
    decreases n
  {
    hide Step, Steps, Xor;
    if n == 0 {
    } else {
      StepsLinear(a, b, 8);
      ShiftsLinear(Steps(a, 8), Steps(b, 8), n - 1);
    }
  }

  lemma {:induction false} StepsInjective(a: bv32, b: bv32, k: nat)
    requires Steps(a, k) == Steps(b, k)
    ensures a == b
    decreases k
  {
    hide Step;
    if k == 0 {
    } else {
      StepsInjective(Step(a), Step(b), k - 1);
      StepInjective(a, b);
    }
  }

  lemma {:induction false} ShiftsInjective(a: bv32, b: bv32, n: nat)
    requires Shifts(a, n) == Shifts(b, n)
    ensures a == b
    decreases n
  {
    hide Step, Steps;
    if n == 0 {
    } else {
      ShiftsInjective(Steps(a, 8), Steps(b, 8), n - 1);
      StepsInjective(a, b, 8);
    }
  }

  lemma {:induction false} ShiftsCompose(c: bv32, m: nat, n: nat)
    ensures Shifts(Shifts(c, m), n) == Shifts(c, m + n)
    decreases m
  {
    hide Step, Steps;
    if m == 0 {
    } else {
      ShiftsCompose(Steps(c, 8), m - 1, n);
    }
  }

  // ---- A byte entering bit by bit is a byte entering at once ----

  function Rest(b: bv8, k: nat): bv8
    decreases k
  {
    if k == 0 then b else Rest(Halve(b), k - 1)
  }

  lemma ByteSplits(b: bv8)
    ensures b as bv32 == ((b & 1) as bv32) ^ ((b as bv32) & 0xFE)
    ensures Step((b as bv32) & 0xFE) == (b >> 1) as bv32
  {
    assert ((b as bv32) & 0xFE) & 1 == 0;
    assert ((b as bv32) & 0xFE) >> 1 == (b >> 1) as bv32;
  }

  lemma BitEnters(c: bv32, b: bv8)
    ensures Xor(Step(Xor(c, LowBit(b))), Word(Halve(b))) == Step(Xor(c, Word(b)))
  {
    var high := (b as bv32) & 0xFE;
    assert Word(b) == Xor(LowBit(b), high) && Step(high) == Word(Halve(b)) by { ByteSplits(b); }
    hide Step, Xor, Word, LowBit, Halve;
    XorLaws(c, LowBit(b), high);
    StepLinear(Xor(c, LowBit(b)), high);
  }

  lemma {:induction false} BitsEnter(c: bv32, b: bv8, k: nat)
    ensures Xor(Bits(c, b, k), Word(Rest(b, k))) == Steps(Xor(c, Word(b)), k)
    decreases k
  {
    hide Step, Xor, Word, LowBit, Halve;
    if k == 0 {
    } else {
      BitEnters(c, b);
      BitsEnter(Step(Xor(c, LowBit(b))), Halve(b), k - 1);
    }
  }

  lemma HalvesVanish(b: bv8)
    ensures b >> 1 >> 1 >> 1 >> 1 >> 1 >> 1 >> 1 >> 1 == 0
  {}

  lemma AllBitsLeave(b: bv8)
    ensures Rest(b, 8) == 0
  {
    var b1 := Halve(b);
    var b2 := Halve(b1);
    var b3 := Halve(b2);
    var b4 := Halve(b3);
    var b5 := Halve(b4);
    var b6 := Halve(b5);
    var b7 := Halve(b6);
    assert Halve(b7) == 0 by { HalvesVanish(b); }
    hide Halve;
    assert Rest(b, 8) == Rest(b1, 7) == Rest(b2, 6) == Rest(b3, 5) == Rest(b4, 4);
    assert Rest(b4, 4) == Rest(b5, 3) == Rest(b6, 2) == Rest(b7, 1) == Halve(b7);
  }

  /** The bit-serial register takes a byte in with one xor and eight shifts. */
  lemma ByteEnters(c: bv32, b: bv8)
    ensures Bits(c, b, 8) == Shifts(Xor(c, Word(b)), 1)
  {
    var w := Word(0);
    assert w == 0;
    hide Step, Xor, Word, LowBit, Halve;
    BitsEnter(c, b, 8);
    AllBitsLeave(b);
    XorLaws(Bits(c, b, 8), w, w);
    assert Shifts(Xor(c, Word(b)), 1) == Shifts(Steps(Xor(c, Word(b)), 8), 0);
  }

  // ---- Bytes and words ----

  function Twice(x: bv32): bv32 { x << 1 }

  lemma StepOfTwice(x: bv32)
    requires x <= 0x7FFF_FFFF
    ensures Step(Twice(x)) == x
  {}

  lemma UpIsTwice(x: bv32)
    ensures Up(x) == Twice(Twice(Twice(Twice(Twice(Twice(Twice(Twice(x))))))))
  {}

  lemma TwiceStays(x: bv32)
    requires x <= 0xFF_FFFF
    ensures Twice(x) <= 0x7FFF_FFFF && Twice(Twice(x)) <= 0x7FFF_FFFF && Twice(Twice(Twice(x))) <= 0x7FFF_FFFF
    ensures var y := Twice(Twice(Twice(Twice(x))));
            y <= 0x7FFF_FFFF && Twice(y) <= 0x7FFF_FFFF && Twice(Twice(y)) <= 0x7FFF_FFFF && Twice(Twice(Twice(y))) <= 0x7FFF_FFFF
  {}

  lemma {:induction false} StepsChain(x8: bv32, x7: bv32, x6: bv32, x5: bv32, x4: bv32, x3: bv32, x2: bv32, x1: bv32, x0: bv32)
    requires Step(x8) == x7 && Step(x7) == x6 && Step(x6) == x5 && Step(x5) == x4
    requires Step(x4) == x3 && Step(x3) == x2 && Step(x2) == x1 && Step(x1) == x0
    ensures Steps(x8, 8) == x0
  {
    hide Step;
    assert Steps(x8, 8) == Steps(x7, 7) == Steps(x6, 6) == Steps(x5, 5) == Steps(x4, 4);
    assert Steps(x4, 4) == Steps(x3, 3) == Steps(x2, 2) == Steps(x1, 1) == Steps(x0, 0);
  }

  lemma StepsOfUp(x: bv32)
    requires x <= 0xFF_FFFF
    ensures Steps(Up(x), 8) == x
  {
    hide Step, Steps, Twice, Up;
    var x1 := Twice(x);
    var x2 := Twice(x1);
    var x3 := Twice(x2);
    var x4 := Twice(x3);
    var x5 := Twice(x4);
    var x6 := Twice(x5);
    var x7 := Twice(x6);
    TwiceStays(x);
    UpIsTwice(x);
    StepOfTwice(x);
    StepOfTwice(x1);
    StepOfTwice(x2);
    StepOfTwice(x3);
    StepOfTwice(x4);
    StepOfTwice(x5);
    StepOfTwice(x6);
    StepOfTwice(x7);
    StepsChain(Up(x), x7, x6, x5, x4, x3, x2, x1, x);
  }

  /** A byte that enters late can be put one position higher before the shift. */
  lemma ShiftsOfUp(x: bv32, n: nat)
    requires x <= 0xFF_FFFF
    ensures Shifts(Up(x), n + 1) == Shifts(x, n)
  {
    hide Step, Steps, Up;
    StepsOfUp(x);
    assert Shifts(Up(x), n + 1) == Shifts(Steps(Up(x), 8), n);
  }

  function Up2(x: bv32): bv32 { Up(Up(x)) }

  function Up3(x: bv32): bv32 { Up(Up(Up(x))) }

  lemma UpRange(x: bv32)
    requires x <= 0xFF
    ensures x <= 0xFF_FFFF && Up(x) <= 0xFF_FFFF && Up2(x) <= 0xFF_FFFF
  {}

  lemma WordRange(b: bv8)
    ensures Word(b) <= 0xFF
  {}

  /** Four bytes as a little-endian word. */
  function LoadLe(b0: bv8, b1: bv8, b2: bv8, b3: bv8): bv32 {
    Xor(Word(b0), Xor(Up(Word(b1)), Xor(Up2(Word(b2)), Up3(Word(b3)))))
  }

  lemma {:induction false} RegisterOfFour(c: bv32, s: seq<bv8>)
    requires |s| == 4
    ensures Register(c, s) == Bits(Bits(Bits(Bits(c, s[0], 8), s[1], 8), s[2], 8), s[3], 8)
  {
    hide Bits;
    var c1 := Bits(c, s[0], 8);
    var c2 := Bits(c1, s[1], 8);
    var c3 := Bits(c2, s[2], 8);
    assert Register(c, s) == Register(c1, s[1..]);
    assert Register(c1, s[1..]) == Register(c2, s[2..]) by { assert s[1..][1..] == s[2..]; }
    assert Register(c2, s[2..]) == Register(c3, s[3..]) by { assert s[2..][1..] == s[3..]; }
    assert Register(c3, s[3..]) == Register(Bits(c3, s[3], 8), s[3..][1..]);
  }

  /** Taking in the byte `b` after `n` shifts of `c`. */
  lemma LateByte(c: bv32, n: nat, b: bv8, up: bv32)
    requires Shifts(up, n) == Word(b)
    ensures Bits(Shifts(c, n), b, 8) == Shifts(Xor(c, up), n + 1)
  {
    hide Step, Steps, Xor, Word, Bits;
    ByteEnters(Shifts(c, n), b);
    ShiftsLinear(c, up, n);
    ShiftsCompose(Xor(c, up), n, 1);
  }

  /** Four bytes enter the register as one little-endian word. */
  lemma WordEnters(c: bv32, s: seq<bv8>)
    requires |s| == 4
    ensures Register(c, s) == Shifts(Xor(c, LoadLe(s[0], s[1], s[2], s[3])), 4)
  {
    hide Step, Steps, Xor, Word, Bits, Up, Register;
    var x0, x1, x2, x3 := Word(s[0]), Up(Word(s[1])), Up2(Word(s[2])), Up3(Word(s[3]));
    RegisterOfFour(c, s);
    assert Shifts(c, 0) == c && Shifts(x0, 0) == x0;
    LateByte(c, 0, s[0], x0);
    assert Shifts(x1, 1) == Word(s[1]) by { BytesUp(s[1]); }
    LateByte(Xor(c, x0), 1, s[1], x1);
    assert Shifts(x2, 2) == Word(s[2]) by { BytesUp(s[2]); }
    LateByte(Xor(Xor(c, x0), x1), 2, s[2], x2);
    assert Shifts(x3, 3) == Word(s[3]) by { BytesUp(s[3]); }
    LateByte(Xor(Xor(Xor(c, x0), x1), x2), 3, s[3], x3);
    XorLaws(Xor(Xor(c, x0), x1), x2, x3);
    XorLaws(Xor(c, x0), x1, Xor(x2, x3));
    XorLaws(c, x0, Xor(x1, Xor(x2, x3)));
  }

  lemma BytesUp(b: bv8)
    ensures Shifts(Up(Word(b)), 1) == Shifts(Up2(Word(b)), 2) == Shifts(Up3(Word(b)), 3) == Word(b)
  {
    hide Step, Steps, Word, Up;
    var x := Word(b);
    WordRange(b);
    ByteUp(x);
    assert Shifts(x, 0) == x;
  }

  lemma ByteUp(x: bv32)
    requires x <= 0xFF
    ensures forall n: nat :: Shifts(Up(x), n + 1) == Shifts(x, n)
    ensures forall n: nat :: Shifts(Up2(x), n + 2) == Shifts(x, n)
    ensures forall n: nat :: Shifts(Up3(x), n + 3) == Shifts(x, n)
  {
    UpRange(x);
    hide Step, Steps, Up, Shifts;
    forall n: nat
      ensures Shifts(Up(x), n + 1) == Shifts(x, n)
      ensures Shifts(Up2(x), n + 2) == Shifts(x, n)
      ensures Shifts(Up3(x), n + 3) == Shifts(x, n)
    {
      ShiftsOfUp(x, n);
      ShiftsOfUp(Up(x), n + 1);
      ShiftsOfUp(Up2(x), n + 2);
    }
  }

  function Byte1(x: bv32): bv32 { (x >> 8) & 0xFF }

  function Byte2(x: bv32): bv32 { (x >> 16) & 0xFF }

  function Byte3(x: bv32): bv32 { x >> 24 }

  lemma WordSplits(x: bv32)
    ensures x == Xor(Low(x), Xor(Up(Byte1(x)), Xor(Up2(Byte2(x)), Up3(Byte3(x)))))
    ensures Low(x) <= 0xFF && Byte1(x) <= 0xFF && Byte2(x) <= 0xFF && Byte3(x) <= 0xFF
  {}

  /** A shifted word is the xor of its shifted bytes. */
  lemma ShiftsByBytes(x: bv32, n: nat)
    ensures Shifts(x, n + 4) == Xor(Shifts(Low(x), n + 4), Xor(Shifts(Byte1(x), n + 3),
                                    Xor(Shifts(Byte2(x), n + 2), Shifts(Byte3(x), n + 1))))
  {
    hide Step, Steps, Xor, Up, Up2, Up3, Low, Byte1, Byte2, Byte3, Shifts;
    WordSplits(x);
    var x0, x1, x2, x3 := Low(x), Byte1(x), Byte2(x), Byte3(x);
    ShiftsLinear(Up2(x2), Up3(x3), n + 4);
    ShiftsLinear(Up(x1), Xor(Up2(x2), Up3(x3)), n + 4);
    ShiftsLinear(x0, Xor(Up(x1), Xor(Up2(x2), Up3(x3))), n + 4);
    ByteUpBy(x1, n + 3, 1);
    ByteUpBy(x2, n + 2, 2);
    ByteUpBy(x3, n + 1, 3);
  }

  /** A byte that is put up by `k` positions is shifted down again by `k` bytes of shifts. */
  lemma ByteUpBy(x: bv32, n: nat, k: nat)
    requires x <= 0xFF && 1 <= k <= 3
    ensures Shifts(if k == 1 then Up(x) else if k == 2 then Up2(x) else Up3(x), n + k) == Shifts(x, n)
  {
    hide Step, Steps, Up, Up2, Up3, Shifts;
    ByteUp(x);
  }

  lemma LowHigh(x: bv32)
    ensures x == Xor(Up(Down(x)), Low(x)) && Down(x) <= 0xFF_FFFF
  {}

  /** One byte's worth of shifts moves the high bytes down and folds the low byte in: the table recurrence. */
  lemma ShiftByTable(x: bv32)
    ensures Shifts(x, 1) == Xor(Down(x), Shifts(Low(x), 1))
  {
    hide Step, Steps, Xor, Up, Down, Low;
    LowHigh(x);
    ShiftsLinear(Up(Down(x)), Low(x), 1);
    ShiftsOfUp(Down(x), 0);
  }

  // ---- Properties of the checksum ----

  lemma {:induction false} RegisterConcat(c: bv32, a: seq<bv8>, b: seq<bv8>)
    ensures Register(c, a + b) == Register(Register(c, a), b)
    decreases |a|
  {
    hide Bits;
    if a == [] {
      assert a + b == b;
    } else {
      assert (a + b)[1..] == a[1..] + b;
      RegisterConcat(Bits(c, a[0], 8), a[1..], b);
    }
  }

  lemma NotNot(x: bv32)
    ensures Not(Not(x)) == x
  {}

  /** Checksums chain over concatenation. */
  lemma CrcChains(a: seq<bv8>, b: seq<bv8>, init: bv32)
    ensures Crc(a + b, init) == Crc(b, Crc(a, init))
  {
    hide Not, Register;
    RegisterConcat(Not(init), a, b);
    NotNot(Register(Not(init), a));
  }

  lemma {:induction false} RegisterInjective(c: bv32, d: bv32, s: seq<bv8>)
    requires Register(c, s) == Register(d, s)
    ensures c == d
    decreases |s|
  {
    hide Bits, Xor, Word, Shifts;
    if s == [] {
    } else {
      RegisterInjective(Bits(c, s[0], 8), Bits(d, s[0], 8), s[1..]);
      ByteEnters(c, s[0]);
      ByteEnters(d, s[0]);
      ShiftsInjective(Xor(c, Word(s[0])), Xor(d, Word(s[0])), 1);
      XorLaws(c, d, Word(s[0]));
    }
  }

  lemma LoadLeInjective(a0: bv8, a1: bv8, a2: bv8, a3: bv8, b0: bv8, b1: bv8, b2: bv8, b3: bv8)
    requires LoadLe(a0, a1, a2, a3) == LoadLe(b0, b1, b2, b3)
    ensures a0 == b0 && a1 == b1 && a2 == b2 && a3 == b3
  {}

  lemma WindowInjective(c: bv32, w: seq<bv8>, v: seq<bv8>)
    requires |w| == |v| == 4
    requires Register(c, w) == Register(c, v)
    ensures w == v
  {
    hide Register, Xor, Shifts, LoadLe;
    WordEnters(c, w);
    WordEnters(c, v);
    var lw, lv := LoadLe(w[0], w[1], w[2], w[3]), LoadLe(v[0], v[1], v[2], v[3]);
    ShiftsInjective(Xor(c, lw), Xor(c, lv), 4);
    XorLaws(c, lw, c);
    XorLaws(c, lv, c);
    XorLaws(lw, lv, c);
    LoadLeInjective(w[0], w[1], w[2], w[3], v[0], v[1], v[2], v[3]);
  }

  /** A window of up to four bytes decides the register: pad it to a word. */
  lemma ShortWindowInjective(c: bv32, w: seq<bv8>, v: seq<bv8>)
    requires |w| == |v| <= 4
    requires Register(c, w) == Register(c, v)
    ensures w == v
  {
    hide Register;
    var pad: seq<bv8> := seq(4 - |w|, _ => 0);
    RegisterConcat(c, w, pad);
    RegisterConcat(c, v, pad);
    WindowInjective(c, w + pad, v + pad);
    assert w == (w + pad)[..|w|];
    assert v == (v + pad)[..|v|];
  }

  /** Two byte strings that differ only inside a window of at most four bytes never share a checksum. */
  lemma BurstDetected(a: seq<bv8>, w: seq<bv8>, v: seq<bv8>, b: seq<bv8>, init: bv32)
    requires |w| == |v| <= 4
    ensures Crc(a + w + b, init) == Crc(a + v + b, init) <==> w == v
  {
    hide Not, Register;
    if Crc(a + w + b, init) == Crc(a + v + b, init) {
      NotNot(Register(Not(init), a + w + b));
      NotNot(Register(Not(init), a + v + b));
      RegisterConcat(Not(init), a + w, b);
      RegisterConcat(Not(init), a + v, b);
      RegisterInjective(Register(Not(init), a + w), Register(Not(init), a + v), b);
      RegisterConcat(Not(init), a, w);
      RegisterConcat(Not(init), a, v);
      ShortWindowInjective(Register(Not(init), a), w, v);
    }
  }

  // ---- The implementation: generated tables and eight bytes per round ----

  /** What table `s` holds for byte `x`: the register `x` after `s + 1` zero bytes. */
  function Entry(s: nat, x: bv32): bv32 {
    Shifts(x, s + 1)
  }

  ghost predicate IsTables(t: array2<bv32>)
    reads t
  {
    && t.Length0 == 8 && t.Length1 == 256
    && forall s, i :: 0 <= s < 8 && 0 <= i < 256 ==> t[s, i] == Entry(s, i as bv32)
  }

  lemma IndexRoundTrip(x: bv32)
    requires x <= 0xFF
    ensures 0 <= x as int < 256 && (x as int) as bv32 == x
  {}

  lemma LowRange(x: bv32)
    ensures Low(x) <= 0xFF
  {}

  /** The first table entry of `i`, shifted bit by bit. */
  method FirstEntry(i: bv32) returns (c: bv32)
    ensures c == Entry(0, i)
  {
    hide Step;
    c := i;
    for k := 0 to 8
      invariant Steps(c, 8 - k) == Steps(i, 8)
    {
      c := Shift(c);
    }
    assert Entry(0, i) == Shifts(Steps(i, 8), 0);
  }

  method Shift(c: bv32) returns (d: bv32)
    ensures d == Step(c)
  {
    d := if c & 1 == 1 then 0xEDB88320 ^ (c >> 1) else c >> 1;
  }

  ghost predicate HoldsFirst(t: array2<bv32>, n: nat)
    reads t
  {
    && t.Length0 == 8 && t.Length1 == 256 && n <= 256
    && forall j :: 0 <= j < n ==> t[0, j] == Entry(0, j as bv32)
  }

  ghost predicate HoldsColumn(t: array2<bv32>, i: nat, n: nat)
    reads t
  {
    && t.Length0 == 8 && t.Length1 == 256 && i < 256 && n <= 8
    && forall s :: 0 <= s < n ==> t[s, i] == Entry(s, i as bv32)
  }

  method MakeTables() returns (t: array2<bv32>)
    ensures fresh(t) && IsTables(t)
  {
    hide Entry;
    t := new bv32[8, 256];
    for i := 0 to 256
      invariant HoldsFirst(t, i)
    {
      t[0, i] := FirstEntry(i as bv32);
    }
    for i := 0 to 256
      invariant HoldsFirst(t, 256)
      invariant forall j :: 0 <= j < i ==> HoldsColumn(t, j, 8)
    {
      label Before:
      FillColumn(t, i);
      forall j | 0 <= j < i
        ensures HoldsColumn(t, j, 8)
      {
        assert old@Before(HoldsColumn(t, j, 8));
      }
    }
    forall s, i | 0 <= s < 8 && 0 <= i < 256
      ensures t[s, i] == Entry(s, i as bv32)
    {
      assert HoldsColumn(t, i, 8);
    }
  }

  method FillColumn(t: array2<bv32>, i: nat)
    requires HoldsFirst(t, 256) && i < 256
    modifies t
    ensures HoldsFirst(t, 256) && HoldsColumn(t, i, 8)
    ensures forall s, j :: 0 <= s < 8 && 0 <= j < 256 && j != i ==> t[s, j] == old(t[s, j])
  {
    hide Entry;
    for s := 1 to 8
      invariant HoldsFirst(t, 256) && HoldsColumn(t, i, s)
      invariant forall r, j :: 0 <= r < 8 && 0 <= j < 256 && j != i ==> t[r, j] == old(t[r, j])
    {
      t[s, i] := NextEntry(t, s - 1, i);
    }
  }

  method NextEntry(t: array2<bv32>, s: nat, i: nat) returns (e: bv32)
    requires HoldsFirst(t, 256) && s < 7 && i < 256
    requires t[s, i] == Entry(s, i as bv32)
    ensures e == Entry(s + 1, i as bv32)
  {
    hide Step, Steps, Shifts;
    var prev := t[s, i];
    LowRange(prev);
    IndexRoundTrip(Low(prev));
    e := Xor(Down(prev), t[0, Low(prev) as int]);
    ShiftByTable(prev);
    ShiftsCompose(i as bv32, s + 1, 1);
  }

  method Lookup(t: array2<bv32>, s: nat, x: bv32) returns (e: bv32)
    requires IsTables(t) && s < 8 && x <= 0xFF
    ensures e == Entry(s, x)
  {
    hide Entry;
    IndexRoundTrip(x);
    e := t[s, x as int];
  }

  lemma EightBytes(c: bv32, s: seq<bv8>)
    requires |s| == 8
    ensures Register(c, s) == Xor(Shifts(Xor(c, LoadLe(s[0], s[1], s[2], s[3])), 8), Shifts(LoadLe(s[4], s[5], s[6], s[7]), 4))
  {
    hide Register, Xor, Shifts, LoadLe;
    var one, two := Xor(c, LoadLe(s[0], s[1], s[2], s[3])), LoadLe(s[4], s[5], s[6], s[7]);
    assert s == s[..4] + s[4..];
    RegisterConcat(c, s[..4], s[4..]);
    WordEnters(c, s[..4]);
    WordEnters(Shifts(one, 4), s[4..]);
    ShiftsLinear(Shifts(one, 4), two, 4);
    ShiftsCompose(one, 4, 4);
  }

  /** `a ^ b ^ c ^ d ^ e ^ f ^ g ^ h`, from the left. */
  function Xor8(a: bv32, b: bv32, c: bv32, d: bv32, e: bv32, f: bv32, g: bv32, h: bv32): bv32 {
    Xor(Xor(Xor(Xor(Xor(Xor(Xor(a, b), c), d), e), f), g), h)
  }

  lemma Xor8Groups(a: bv32, b: bv32, c: bv32, d: bv32, e: bv32, f: bv32, g: bv32, h: bv32)
    ensures Xor8(a, b, c, d, e, f, g, h) == Xor(Xor(a, Xor(b, Xor(c, d))), Xor(e, Xor(f, Xor(g, h))))
  {
    hide Xor;
    var ab, abc, abcd := Xor(a, b), Xor(Xor(a, b), c), Xor(Xor(Xor(a, b), c), d);
    XorAssociates(a, b, c);
    XorAssociates(ab, c, d);
    XorAssociates(a, b, Xor(c, d));
    XorAssociates(Xor(Xor(abcd, e), f), g, h);
    XorAssociates(Xor(abcd, e), f, Xor(g, h));
    XorAssociates(abcd, e, Xor(f, Xor(g, h)));
  }

  /** One round of the slicing loop: eight bytes through eight tables. */
  method Round(t: array2<bv32>, crc: bv32, s: seq<bv8>) returns (next: bv32)
    requires IsTables(t) && |s| == 8
    ensures next == Register(crc, s)
  {
    hide IsTables, Register, Xor, Shifts, LoadLe, Low, Byte1, Byte2, Byte3;
    EightBytes(crc, s);
    var one := Xor(crc, LoadLe(s[0], s[1], s[2], s[3]));
    var two := LoadLe(s[4], s[5], s[6], s[7]);
    WordSplits(one);
    WordSplits(two);
    ShiftsByBytes(one, 4);
    ShiftsByBytes(two, 0);
    var a := Lookup(t, 7, Low(one));
    var b := Lookup(t, 6, Byte1(one));
    var c := Lookup(t, 5, Byte2(one));
    var d := Lookup(t, 4, Byte3(one));
    var e := Lookup(t, 3, Low(two));
    var f := Lookup(t, 2, Byte1(two));
    var g := Lookup(t, 1, Byte2(two));
    var h := Lookup(t, 0, Byte3(two));
    Xor8Groups(a, b, c, d, e, f, g, h);
    next := Xor8(a, b, c, d, e, f, g, h);
  }

  lemma HighUntouched(c: bv32, b: bv8)
    ensures Down(Xor(c, Word(b))) == Down(c)
  {}

  /** The byte-wise tail: one table lookup per byte. */
  method TailByte(t: array2<bv32>, crc: bv32, b: bv8) returns (next: bv32)
    requires IsTables(t)
    ensures next == Bits(crc, b, 8)
  {
    hide IsTables, Bits, Xor, Shifts, Low, Down, Word;
    var x := Xor(crc, Word(b));
    LowRange(x);
    var e := Lookup(t, 0, Low(x));
    next := Xor(e, Down(crc));
    ByteEnters(crc, b);
    ShiftByTable(x);
    HighUntouched(crc, b);
    XorLaws(Down(crc), e, e);
  }

  /** Slicing-by-8 computes the bit-serial checksum of every byte string. */
  method SlicingBy8(t: array2<bv32>, p: seq<bv8>, init: bv32) returns (sum: bv32)
    requires IsTables(t)
    ensures sum == Crc(p, init)
  {
    hide IsTables, Bits, Not;
    var crc := Not(init);
    var i := 0;
    while |p| - i >= 8
      invariant 0 <= i <= |p|
      invariant Register(crc, p[i..]) == Register(Not(init), p)
    {
      assert p[i..] == p[i..i + 8] + p[i + 8..];
      RegisterConcat(crc, p[i..i + 8], p[i + 8..]);
      crc := Round(t, crc, p[i..i + 8]);
      i := i + 8;
    }
    while i < |p|
      invariant 0 <= i <= |p|
      invariant Register(crc, p[i..]) == Register(Not(init), p)
    {
      assert p[i..][1..] == p[i + 1..];
      crc := TailByte(t, crc, p[i]);
      i := i + 1;
    }
    sum := Not(crc);
  }
}
