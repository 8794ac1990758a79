/** The CRC-16/CCITT-FALSE checksum of C1-Link: polynomial 0x1021, initial value 0xFFFF,
    most significant bit first, no final xor. */
module Crc16 {
  import opened Gf2

  const INITIAL := Reg(0xFFFF)

  function Shifts(a: Reg, n: nat): Reg {
    if n == 0 then a else Shift(Shifts(a, n - 1))
  }

  function CrcByte(crc: Reg, b: Byte): Reg {
    Shifts(Xor(crc, Top(b)), 8)
  }

  function Crc(seed: Reg, data: seq<Byte>): Reg {
    if data == [] then seed else CrcByte(Crc(seed, data[..|data| - 1]), data[|data| - 1])
  }

  function XorBytes(a: seq<Byte>, b: seq<Byte>): (r: seq<Byte>)
    requires |a| == |b|
  {
    seq(|a|, i requires 0 <= i < |a| => a[i] ^ b[i])
  }

  // ---- Linearity ----

  lemma {:induction false} ShiftsLinear(a: Reg, b: Reg, n: nat)
    ensures Shifts(Xor(a, b), n) == Xor(Shifts(a, n), Shifts(b, n))
  {
    hide Xor, Shift;
    if n > 0 {
      ShiftsLinear(a, b, n - 1);
      ShiftLinear(Shifts(a, n - 1), Shifts(b, n - 1));
    }
  }

  lemma {:induction false} ShiftsKernel(a: Reg, n: nat)
    requires Shifts(a, n) == ZERO
    ensures a == ZERO
  {
    hide Shift;
    if n > 0 {
      ShiftKernel(Shifts(a, n - 1));
      ShiftsKernel(a, n - 1);
    }
  }

  lemma ShiftsInjective(a: Reg, b: Reg, n: nat)
    requires Shifts(a, n) == Shifts(b, n)
    ensures a == b
  {
    hide Xor, Shift, Shifts;
    ShiftsLinear(a, b, n);
    XorSelf(Shifts(a, n));
    ShiftsKernel(Xor(a, b), n);
    XorIsZero(a, b);
  }

  lemma CrcByteLinear(c: Reg, d: Reg, a: Byte, b: Byte)
    ensures CrcByte(Xor(c, d), a ^ b) == Xor(CrcByte(c, a), CrcByte(d, b))
  {
    hide Xor, Shift, Shifts, Top;
    TopXor(a, b);
    XorSwap(c, d, Top(a), Top(b));
    ShiftsLinear(Xor(c, Top(a)), Xor(d, Top(b)), 8);
  }

  /** The checksum is a linear map of register and message together. */
  lemma {:induction false} CrcLinear(s: Reg, t: Reg, a: seq<Byte>, b: seq<Byte>)
    requires |a| == |b|
    ensures Crc(Xor(s, t), XorBytes(a, b)) == Xor(Crc(s, a), Crc(t, b))
  {
    hide Xor, CrcByte;
    if a == [] {
    } else {
      var n := |a| - 1;
      assert XorBytes(a, b)[..n] == XorBytes(a[..n], b[..n]);
      CrcLinear(s, t, a[..n], b[..n]);
      CrcByteLinear(Crc(s, a[..n]), Crc(t, b[..n]), a[n], b[n]);
    }
  }

  // ---- Chaining ----

  lemma CrcEmpty(seed: Reg)
    ensures Crc(seed, []) == seed
  {
  }

  lemma CrcAppend(seed: Reg, a: seq<Byte>, b: Byte)
    ensures Crc(seed, a + [b]) == CrcByte(Crc(seed, a), b)
  {
    hide CrcByte;
    assert (a + [b])[..|a|] == a;
  }

  /** A checksum may be taken in pieces, each seeded with the one before. */
  lemma {:induction false} CrcConcat(seed: Reg, a: seq<Byte>, b: seq<Byte>)
    ensures Crc(seed, a + b) == Crc(Crc(seed, a), b)
  {
    hide CrcByte;
    if b == [] {
      assert a + b == a;
    } else {
      var n := |b| - 1;
      assert (a + b)[..|a + b| - 1] == a + b[..n];
      CrcConcat(seed, a, b[..n]);
    }
  }

  /** Registers that differ still differ after any common tail. */
  lemma {:induction false} CrcTailInjective(c: Reg, d: Reg, tail: seq<Byte>)
    requires Crc(c, tail) == Crc(d, tail)
    ensures c == d
  {
    hide Xor, Shift, Shifts, Top;
    if tail == [] {
    } else {
      var n := |tail| - 1;
      var p, q := Crc(c, tail[..n]), Crc(d, tail[..n]);
      ShiftsInjective(Xor(p, Top(tail[n])), Xor(q, Top(tail[n])), 8);
      XorCancel(p, q, Top(tail[n]), Top(tail[n]));
      XorSelf(Top(tail[n]));
      XorIsZero(p, q);
      CrcTailInjective(c, d, tail[..n]);
    }
  }

  // ---- Burst errors ----

  lemma XorCancel(a: Reg, b: Reg, c: Reg, d: Reg)
    requires Xor(a, c) == Xor(b, d)
    ensures Xor(a, b) == Xor(c, d)
  {
    hide Xor;
    XorSelf(Xor(a, c));
    XorSwap(a, c, b, d);
    XorIsZero(Xor(a, b), Xor(c, d));
  }

  lemma EightSpread(e: Reg)
    requires LowHalfClear(e) && LowHalfClear(Shifts(e, 8))
    ensures e == ZERO
  {
    hide Shift, LowHalfClear;
    assert Shifts(e, 1) == Shift(Shifts(e, 0));
    assert Shifts(e, 3) == Shift(Shift(Shifts(e, 1)));
    assert Shifts(e, 5) == Shift(Shift(Shifts(e, 3)));
    assert Shifts(e, 7) == Shift(Shift(Shifts(e, 5)));
    EightShiftsSpread(e);
  }

  /** No change confined to two neighbouring bytes goes unnoticed by the register. */
  lemma AdjacentBytesInjective(c: Reg, a1: Byte, a2: Byte, b1: Byte, b2: Byte)
    requires CrcByte(CrcByte(c, a1), a2) == CrcByte(CrcByte(c, b1), b2)
    ensures a1 == b1 && a2 == b2
  {
    hide Xor, Shift, Shifts, Top, LowHalfClear;
    var p, q := CrcByte(c, a1), CrcByte(c, b1);
    // The second byte's shifts are injective, so the registers differ by the second bytes only.
    ShiftsInjective(Xor(p, Top(a2)), Xor(q, Top(b2)), 8);
    XorCancel(p, q, Top(a2), Top(b2));
    // The first bytes' difference e has become that difference, which fits the upper half.
    var e := Xor(Top(a1), Top(b1));
    ShiftsLinear(Xor(c, Top(a1)), Xor(c, Top(b1)), 8);
    XorSwap(c, Top(a1), c, Top(b1));
    XorSelf(c);
    XorZero(e);
    TopLowHalf(a1, b1);
    TopLowHalf(a2, b2);
    EightSpread(e);
    XorIsZero(Top(a1), Top(b1));
    TopInjective(a1, b1);
    XorSelf(p);
    XorIsZero(Top(a2), Top(b2));
    TopInjective(a2, b2);
  }

  /** The checksum tells apart any two messages that differ within two adjacent bytes. */
  lemma CrcDetectsPair(seed: Reg, head: seq<Byte>, a1: Byte, a2: Byte, b1: Byte, b2: Byte, tail: seq<Byte>)
    requires Crc(seed, head + [a1, a2] + tail) == Crc(seed, head + [b1, b2] + tail)
    ensures a1 == b1 && a2 == b2
  {
    hide CrcByte;
    CrcConcat(seed, head + [a1, a2], tail);
    CrcConcat(seed, head + [b1, b2], tail);
    CrcTailInjective(Crc(seed, head + [a1, a2]), Crc(seed, head + [b1, b2]), tail);
    assert head + [a1, a2] == head + [a1] + [a2] && head + [b1, b2] == head + [b1] + [b2];
    CrcAppend(seed, head, a1);
    CrcAppend(seed, head + [a1], a2);
    CrcAppend(seed, head, b1);
    CrcAppend(seed, head + [b1], b2);
    AdjacentBytesInjective(Crc(seed, head), a1, a2, b1, b2);
  }

  /** The same for a single byte, which may be the last one. */
  lemma CrcDetectsByte(seed: Reg, head: seq<Byte>, a: Byte, b: Byte, tail: seq<Byte>)
    requires Crc(seed, head + [a] + tail) == Crc(seed, head + [b] + tail)
    ensures a == b
  {
    hide CrcByte;
    CrcConcat(seed, head + [a], tail);
    CrcConcat(seed, head + [b], tail);
    CrcTailInjective(Crc(seed, head + [a]), Crc(seed, head + [b]), tail);
    CrcAppend(seed, head, a);
    CrcAppend(seed, head, b);
    AdjacentBytesInjective(Crc(seed, head), a, 0, b, 0);
  }

  /** What a change to the last byte does to the register. */
  lemma LastByteDifference(c: Reg, a: Byte, b: Byte)
    ensures Xor(CrcByte(c, a), CrcByte(c, b)) == Shifts(Top(Change(a, b)), 8)
  {
    hide Xor, Shift, Shifts, Top, Change;
    ShiftsLinear(Xor(c, Top(a)), Xor(c, Top(b)), 8);
    XorSwap(c, Top(a), c, Top(b));
    XorSelf(c);
    XorZero(Xor(Top(a), Top(b)));
    TopChange(a, b);
  }

  lemma EightShifts(a: Reg)
    ensures Shifts(a, 8) == Shift(Shift(Shift(Shift(Shift(Shift(Shift(Shift(a))))))))
  {
    hide Shift;
    assert Shifts(a, 1) == Shift(Shifts(a, 0));
    assert Shifts(a, 3) == Shift(Shift(Shifts(a, 1)));
    assert Shifts(a, 5) == Shift(Shift(Shifts(a, 3)));
    assert Shifts(a, 7) == Shift(Shift(Shifts(a, 5)));
  }

  /** A message changed in its last byte only still has the checksum, itself changed in the lower byte
      only, exactly for one pair of changes. */
  lemma StraddlingChange(seed: Reg, head: seq<Byte>, a: Byte, b: Byte, lo: Byte, lo2: Byte, hi: Byte)
    requires Crc(seed, head + [a]) == Word(lo, hi)
    ensures Crc(seed, head + [b]) == Word(lo2, hi) <==> Cancel(Change(a, b), Change(lo, lo2))
  {
    hide Crc, CrcByte, Xor, Shift, Shifts, Top, Word, Change, Cancel;
    var c := Crc(seed, head);
    CrcAppend(seed, head, a);
    CrcAppend(seed, head, b);
    LastByteDifference(c, a, b);
    WordXorLow(lo, lo2, hi);
    EightShifts(Top(Change(a, b)));
    OneByteStaysLow(Change(a, b), Change(lo, lo2));
    EqualWhenXorEqual(Word(lo, hi), CrcByte(c, b), Word(lo2, hi));
  }

  // ---- The catalogue's check value ----

  lemma ByteSteps(c: Reg, b: Byte)
    ensures CrcByte(c, b) == Shift(Shift(Shift(Shift(Shift(Shift(Shift(Shift(Xor(c, Top(b))))))))))
  {
    hide Shift, Xor, Top;
    EightShifts(Xor(c, Top(b)));
  }

  const DIGITS: seq<Byte> := [0x31, 0x32, 0x33, 0x34, 0x35, 0x36, 0x37, 0x38, 0x39]

  lemma FirstDigits()
    ensures Crc(INITIAL, DIGITS[..5]) == Reg(0x4560)
  {
    hide CrcByte, Crc;
    CrcEmpty(INITIAL);
    NextDigit(0, Reg(0xFFFF), Reg(0xC782));
    NextDigit(1, Reg(0xC782), Reg(0x3DBA));
    NextDigit(2, Reg(0x3DBA), Reg(0x5BCE));
    NextDigit(3, Reg(0x5BCE), Reg(0x5349));
    NextDigit(4, Reg(0x5349), Reg(0x4560));
  }

  /** The checksum of the digits 1 to 9, by which the catalogue tells this CRC from its relatives. */
  lemma CheckValue()
    ensures Crc(INITIAL, DIGITS) == Reg(0x29B1)
  {
    hide CrcByte, Crc;
    FirstDigits();
    NextDigit(5, Reg(0x4560), Reg(0x2EF4));
    NextDigit(6, Reg(0x2EF4), Reg(0x7718));
    NextDigit(7, Reg(0x7718), Reg(0xA12B));
    NextDigit(8, Reg(0xA12B), Reg(0x29B1));
    assert DIGITS[..9] == DIGITS;
  }

  lemma NextDigit(k: nat, before: Reg, after: Reg)
    requires k < |DIGITS| && Crc(INITIAL, DIGITS[..k]) == before
    requires Shift(Shift(Shift(Shift(Shift(Shift(Shift(Shift(Xor(before, Top(DIGITS[k])))))))))) == after
    ensures Crc(INITIAL, DIGITS[..k + 1]) == after
  {
    hide CrcByte, Shift, Xor, Top;
    ByteSteps(before, DIGITS[k]);
    assert DIGITS[..k + 1] == DIGITS[..k] + [DIGITS[k]];
    CrcAppend(INITIAL, DIGITS[..k], DIGITS[k]);
  }

  // ---- The loop of the firmware ----

  method ShiftOnce(crc: Reg) returns (next: Reg)
    ensures next == Shift(crc)
  {
    var w := crc.w;
    if w & 0x8000 != 0 {
      var shifted := w << 1;
      next := Reg(shifted ^ 0x1021);
    } else {
      next := Reg(w << 1);
      XorZero(next);
    }
  }

  method Ccitt(data: array<Byte>, start: nat, len: nat, seed: Reg) returns (crc: Reg)
    requires start + len <= data.Length
    ensures crc == Crc(seed, data[start..start + len])
  {
    hide Shift, Top, Xor;
    crc := seed;
    for i := 0 to len
      invariant crc == Crc(seed, data[start..start + i])
    {
      var mixed := Xor(crc, Top(data[start + i]));
      crc := mixed;
      for bit := 0 to 8
        invariant crc == Shifts(mixed, bit)
      {
        crc := ShiftOnce(crc);
      }
      assert data[start..start + i + 1] == data[start..start + i] + [data[start + i]];
      CrcAppend(seed, data[start..start + i], data[start + i]);
    }
  }
}
