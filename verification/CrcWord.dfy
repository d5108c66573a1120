/** Words of the CRC register: polynomials of degree below 32 over the two-element field. */
module CrcWord {

  const GENERATOR_LOW: bv32 := 0x04C11DB7

  function Xor(a: bv32, b: bv32): bv32 {
    a ^ b
  }

  function Shl(a: bv32): bv32 {
    a << 1
  }

  predicate Top(a: bv32) {
    a & 0x80000000 != 0
  }

  /** Multiplication by x, modulo the generator. */
  function MulX(y: bv32): bv32 {
    if Top(y) then Xor(Shl(y), GENERATOR_LOW) else Shl(y)
  }

  function MulX8(y: bv32): bv32 {
    MulX(MulX(MulX(MulX(MulX(MulX(MulX(MulX(y))))))))
  }

  function Byte(b: bv8): bv32 {
    b as bv32
  }

  /** A byte at the top of the register. */
  function TopByte(b: bv8): bv32 {
    Byte(b) << 24
  }

  // Small facts about words

  lemma XorZero(a: bv32)
    ensures Xor(a, 0) == a && Xor(0, a) == a && Xor(a, a) == 0
  {
  }

  lemma XorAssociative(a: bv32, b: bv32, c: bv32)
    ensures Xor(Xor(a, b), c) == Xor(a, Xor(b, c))
  {
  }

  lemma XorCommutes(a: bv32, b: bv32)
    ensures Xor(a, b) == Xor(b, a)
  {
  }

  lemma XorSwap(a: bv32, b: bv32, c: bv32, d: bv32)
    ensures Xor(Xor(a, b), Xor(c, d)) == Xor(Xor(a, c), Xor(b, d))
  {
    hide Xor;
    XorAssociative(a, b, Xor(c, d));
    XorAssociative(b, c, d);
    XorCommutes(b, c);
    XorAssociative(c, b, d);
    XorAssociative(a, c, Xor(b, d));
  }

  lemma XorCancels(a: bv32, b: bv32, c: bv32)
    requires Xor(a, c) == Xor(b, c)
    ensures a == b
  {
  }

  lemma XorShl(a: bv32, b: bv32)
    ensures Shl(Xor(a, b)) == Xor(Shl(a), Shl(b))
  {
  }

  lemma XorTop(a: bv32, b: bv32)
    ensures Top(Xor(a, b)) == (Top(a) != Top(b))
  {
  }

  lemma XorGenerator(a: bv32, b: bv32)
    ensures Xor(Xor(a, GENERATOR_LOW), Xor(b, GENERATOR_LOW)) == Xor(a, b)
    ensures Xor(Xor(a, GENERATOR_LOW), b) == Xor(Xor(a, b), GENERATOR_LOW)
    ensures Xor(a, Xor(b, GENERATOR_LOW)) == Xor(Xor(a, b), GENERATOR_LOW)
  {
    hide Xor;
    XorSwap(a, GENERATOR_LOW, b, GENERATOR_LOW);
    XorZero(GENERATOR_LOW);
    XorZero(Xor(a, b));
    XorAssociative(a, b, GENERATOR_LOW);
    XorAssociative(a, GENERATOR_LOW, b);
    XorCommutes(b, GENERATOR_LOW);
  }

  /** Because the generator has a constant term, a product shows whether it was reduced. */
  lemma ReductionShows(a: bv32, b: bv32)
    ensures Xor(Shl(a), GENERATOR_LOW) != Shl(b)
  {
  }

  lemma ShlInjective(a: bv32, b: bv32)
    requires Shl(a) == Shl(b) && Top(a) == Top(b)
    ensures a == b
  {
  }

  /** Multiplication by x is linear ... */
  lemma MulXLinear(a: bv32, b: bv32)
    ensures MulX(Xor(a, b)) == Xor(MulX(a), MulX(b))
  {
    hide Xor, Shl, Top;
    XorShl(a, b);
    XorTop(a, b);
    XorGenerator(Shl(a), Shl(b));
  }

  /** ... and one-to-one. */
  lemma MulXInjective(a: bv32, b: bv32)
    requires MulX(a) == MulX(b)
    ensures a == b
  {
    hide Xor, Shl, Top;
    ReductionShows(a, b);
    ReductionShows(b, a);
    if Top(a) && Top(b) {
      XorCancels(Shl(a), Shl(b), GENERATOR_LOW);
    }
    ShlInjective(a, b);
  }

  function MulXN(n: nat, y: bv32): bv32 {
    if n == 0 then y else MulXN(n - 1, MulX(y))
  }

  lemma {:induction false} MulXNLinear(n: nat, a: bv32, b: bv32)
    ensures MulXN(n, Xor(a, b)) == Xor(MulXN(n, a), MulXN(n, b))
  {
    hide Xor, MulX;
    if n > 0 {
      MulXLinear(a, b);
      MulXNLinear(n - 1, MulX(a), MulX(b));
    }
  }

  lemma {:induction false} MulXNInjective(n: nat, a: bv32, b: bv32)
    requires MulXN(n, a) == MulXN(n, b)
    ensures a == b
  {
    hide MulX;
    if n > 0 {
      MulXNInjective(n - 1, MulX(a), MulX(b));
      MulXInjective(a, b);
    }
  }

  lemma {:induction false} MulXNAdd(m: nat, n: nat, y: bv32)
    ensures MulXN(m + n, y) == MulXN(n, MulXN(m, y))
  {
    hide MulX;
    if m > 0 {
      MulXNAdd(m - 1, n, MulX(y));
    }
  }

  lemma MulX8IsMulXN(y: bv32)
    ensures MulX8(y) == MulXN(8, y)
  {
    hide MulX;
    var y2 := MulX(MulX(y));
    var y4 := MulX(MulX(y2));
    var y6 := MulX(MulX(y4));
    assert MulXN(8, y) == MulXN(6, y2);
    assert MulXN(6, y2) == MulXN(4, y4);
    assert MulXN(4, y4) == MulXN(2, y6);
    assert MulXN(1, MulX(y6)) == MulX(MulX(y6));
  }

  lemma {:induction false} MulXNZero(n: nat)
    ensures MulXN(n, 0) == 0
  {
    if n > 0 {
      MulXNZero(n - 1);
    }
  }

  // Bytes and words

  function ToWord(a: int): bv8
    requires 0 <= a < 256
  {
    a as bv8
  }

  function FromWord(w: bv8): int {
    w as int
  }

  lemma NextWord(w: bv8)
    requires w as int < 255
    ensures (w + 1) as int == w as int + 1
  {
  }

  /** The word with a given value, found by counting. */
  lemma {:induction false} WordFor(a: nat) returns (w: bv8)
    requires a < 256
    ensures w as int == a
  {
    w := 0;
    if a > 0 {
      var v := WordFor(a - 1);
      NextWord(v);
      w := v + 1;
    }
  }

  lemma WordBack(a: int)
    requires 0 <= a < 256
    ensures FromWord(ToWord(a)) == a
  {
    var w := WordFor(a);
    assert w == a as bv8;
  }

  /** Different bytes are different words. */
  lemma WordsDiffer(a: int, b: int)
    requires 0 <= a < 256 && 0 <= b < 256 && a != b
    ensures ToWord(a) != ToWord(b)
  {
    hide ToWord, FromWord;
    WordBack(a);
    WordBack(b);
  }
}
