/** The 16-bit CRC register as a vector over GF(2). Every fact about single bits lives here, so
    that the modules above reason about registers without looking inside them. */
module Gf2 {

  type Byte = bv8

  datatype Reg = Reg(w: bv16)

  const ZERO := Reg(0)

  function XorWord(a: bv16, b: bv16): bv16 {
    a ^ b
  }

  function Xor(a: Reg, b: Reg): Reg {
    Reg(XorWord(a.w, b.w))
  }

  /** What reduction modulo x^16 + x^12 + x^5 + 1 subtracts after a shift. */
  function Reduce(w: bv16): bv16 {
    if w & 0x8000 != 0 then 0x1021 else 0
  }

  function Double(w: bv16): bv16 {
    w << 1
  }

  /** Multiplication by x modulo the polynomial. */
  function Shift(a: Reg): Reg {
    Reg(XorWord(Double(a.w), Reduce(a.w)))
  }

  /** A data byte enters in the upper half of the register. */
  function Top(b: Byte): Reg {
    Reg((b as bv16) << 8)
  }

  predicate LowHalfClear(a: Reg) {
    a.w & 0x00FF == 0
  }

  /** The register travels least significant byte first. */
  function Lo(a: Reg): Byte {
    (a.w & 0xFF) as Byte
  }

  function Hi(a: Reg): Byte {
    (a.w >> 8) as Byte
  }

  function Word(lo: Byte, hi: Byte): Reg {
    Reg((lo as bv16) | ((hi as bv16) << 8))
  }

  lemma WordOfHalves(a: Reg)
    ensures Word(Lo(a), Hi(a)) == a
  {
  }

  lemma HalvesOfWord(lo: Byte, hi: Byte)
    ensures Lo(Word(lo, hi)) == lo && Hi(Word(lo, hi)) == hi
  {
  }

  lemma XorSelf(a: Reg)
    ensures Xor(a, a) == ZERO
  {
  }

  lemma XorZero(a: Reg)
    ensures Xor(ZERO, a) == a
  {
  }

  lemma XorIsZero(a: Reg, b: Reg)
    requires Xor(a, b) == ZERO
    ensures a == b
  {
  }

  lemma XorWordComm(a: bv16, b: bv16)
    ensures XorWord(a, b) == XorWord(b, a)
  {
  }

  lemma XorWordAssoc(a: bv16, b: bv16, c: bv16)
    ensures XorWord(XorWord(a, b), c) == XorWord(a, XorWord(b, c))
  {
  }

  lemma XorSwapWords(a: bv16, b: bv16, c: bv16, d: bv16)
    ensures XorWord(XorWord(a, b), XorWord(c, d)) == XorWord(XorWord(a, c), XorWord(b, d))
  {
    hide XorWord;
    XorWordAssoc(a, b, XorWord(c, d));
    XorWordAssoc(b, c, d);
    XorWordComm(b, c);
    XorWordAssoc(c, b, d);
    XorWordAssoc(a, c, XorWord(b, d));
  }

  lemma XorSwap(a: Reg, b: Reg, c: Reg, d: Reg)
    ensures Xor(Xor(a, b), Xor(c, d)) == Xor(Xor(a, c), Xor(b, d))
  {
    hide XorWord;
    XorSwapWords(a.w, b.w, c.w, d.w);
  }

  lemma DoubleXor(a: bv16, b: bv16)
    ensures Double(XorWord(a, b)) == XorWord(Double(a), Double(b))
  {
  }

  lemma ReduceXor(a: bv16, b: bv16)
    ensures Reduce(XorWord(a, b)) == XorWord(Reduce(a), Reduce(b))
  {
    assert (a ^ b) & 0x8000 == (a & 0x8000) ^ (b & 0x8000);
    assert a & 0x8000 == 0 || a & 0x8000 == 0x8000;
    assert b & 0x8000 == 0 || b & 0x8000 == 0x8000;
  }

  lemma ShiftLinear(a: Reg, b: Reg)
    ensures Shift(Xor(a, b)) == Xor(Shift(a), Shift(b))
  {
    hide XorWord, Double, Reduce;
    DoubleXor(a.w, b.w);
    ReduceXor(a.w, b.w);
    XorSwapWords(Double(a.w), Double(b.w), Reduce(a.w), Reduce(b.w));
  }

  lemma ShiftKernel(a: Reg)
    requires Shift(a) == ZERO
    ensures a == ZERO
  {
  }

  lemma TopXor(a: Byte, b: Byte)
    ensures Top(a ^ b) == Xor(Top(a), Top(b))
  {
  }

  lemma TopInjective(a: Byte, b: Byte)
    requires Top(a) == Top(b)
    ensures a == b
  {
  }

  lemma TopLowHalf(a: Byte, b: Byte)
    ensures LowHalfClear(Xor(Top(a), Top(b)))
  {
  }

  /** An error in the upper half leaves, after eight shifts, a trace in the lower half, where
      the data byte that follows cannot cancel it. */
  lemma EightShiftsSpread(e: Reg)
    requires LowHalfClear(e)
    requires LowHalfClear(Shift(Shift(Shift(Shift(Shift(Shift(Shift(Shift(e)))))))))
    ensures e == ZERO
  {
  }

  /** The change that turns one byte into another. */
  function Change(a: Byte, b: Byte): Byte {
    a ^ b
  }

  /** A change of a byte and of the byte after it, a checksum's lower half, that go together. */
  predicate Cancel(e: Byte, d: Byte) {
    (e == 0 && d == 0) || (e == 0x89 && d == 0xA1)
  }

  /** Of all changes to a byte, one alone leaves its trace in the lower half only. */
  lemma OneByteStaysLow(e: Byte, d: Byte)
    ensures Shift(Shift(Shift(Shift(Shift(Shift(Shift(Shift(Top(e))))))))) == Word(d, 0) <==> Cancel(e, d)
  {
  }

  lemma WordXorLow(lo: Byte, lo2: Byte, hi: Byte)
    ensures Xor(Word(lo, hi), Word(lo2, hi)) == Word(Change(lo, lo2), 0)
  {
  }

  lemma TopChange(a: Byte, b: Byte)
    ensures Top(Change(a, b)) == Xor(Top(a), Top(b))
  {
  }

  lemma ChangeTwice(a: Byte, b: Byte)
    ensures Change(a, Change(a, b)) == b
    ensures Change(a, a) == 0
  {
  }

  lemma ChangeMeans(a: Byte, b: Byte, e: Byte)
    ensures Change(a, b) == e <==> b == Change(a, e)
    ensures Change(a, b) == 0 <==> b == a
  {
    hide Change;
    ChangeTwice(a, b);
    ChangeTwice(a, e);
    ChangeTwice(a, 0);
    ChangeNothing(a);
  }

  lemma ChangeNothing(a: Byte)
    ensures Change(a, 0) == a
  {
  }

  lemma EqualWhenXorEqual(a: Reg, b: Reg, c: Reg)
    ensures Xor(a, b) == Xor(a, c) <==> b == c
  {
    assert (a.w ^ b.w) ^ a.w == b.w;
    assert (a.w ^ c.w) ^ a.w == c.w;
  }
}
