/** The powers of x modulo the generator up to x^288, on machine words: none of
    x, ..., x^287 is 1. */
module CrcPeriod {
  import opened Crc16

  /** Bit i of a word, leading first. */
  function Bit(c: bv16, i: nat): bool
    requires i < 16
  {
    match i
    case 0 => c & 0x8000 != 0
    case 1 => c & 0x4000 != 0
    case 2 => c & 0x2000 != 0
    case 3 => c & 0x1000 != 0
    case 4 => c & 0x0800 != 0
    case 5 => c & 0x0400 != 0
    case 6 => c & 0x0200 != 0
    case 7 => c & 0x0100 != 0
    case 8 => c & 0x0080 != 0
    case 9 => c & 0x0040 != 0
    case 10 => c & 0x0020 != 0
    case 11 => c & 0x0010 != 0
    case 12 => c & 0x0008 != 0
    case 13 => c & 0x0004 != 0
    case 14 => c & 0x0002 != 0
    case _ => c & 0x0001 != 0
  }

  function WordBits(c: bv16): (r: seq<bool>)
    ensures |r| == 16
    ensures forall i :: 0 <= i < 16 ==> r[i] == Bit(c, i)
  {
    seq(16, i requires 0 <= i < 16 => Bit(c, i))
  }

  function ShiftWord(c: bv16): bv16 {
    if c & 0x8000 != 0 then (c << 1) ^ 0x1021 else c << 1
  }

  // The word-level facts, one bit at a time.

  lemma ShiftClear(c: bv16)
    requires c & 0x8000 == 0
    ensures ShiftWord(c) & 0x8000 != 0 <==> c & 0x4000 != 0
    ensures ShiftWord(c) & 0x4000 != 0 <==> c & 0x2000 != 0
    ensures ShiftWord(c) & 0x2000 != 0 <==> c & 0x1000 != 0
    ensures ShiftWord(c) & 0x1000 != 0 <==> c & 0x0800 != 0
    ensures ShiftWord(c) & 0x0800 != 0 <==> c & 0x0400 != 0
    ensures ShiftWord(c) & 0x0400 != 0 <==> c & 0x0200 != 0
    ensures ShiftWord(c) & 0x0200 != 0 <==> c & 0x0100 != 0
    ensures ShiftWord(c) & 0x0100 != 0 <==> c & 0x0080 != 0
    ensures ShiftWord(c) & 0x0080 != 0 <==> c & 0x0040 != 0
    ensures ShiftWord(c) & 0x0040 != 0 <==> c & 0x0020 != 0
    ensures ShiftWord(c) & 0x0020 != 0 <==> c & 0x0010 != 0
    ensures ShiftWord(c) & 0x0010 != 0 <==> c & 0x0008 != 0
    ensures ShiftWord(c) & 0x0008 != 0 <==> c & 0x0004 != 0
    ensures ShiftWord(c) & 0x0004 != 0 <==> c & 0x0002 != 0
    ensures ShiftWord(c) & 0x0002 != 0 <==> c & 0x0001 != 0
    ensures ShiftWord(c) & 0x0001 != 0 <==> false
  {
  }

  lemma ShiftReduce(c: bv16)
    requires c & 0x8000 != 0
    ensures ShiftWord(c) & 0x8000 != 0 <==> c & 0x4000 != 0
    ensures ShiftWord(c) & 0x4000 != 0 <==> c & 0x2000 != 0
    ensures ShiftWord(c) & 0x2000 != 0 <==> c & 0x1000 != 0
    ensures ShiftWord(c) & 0x1000 != 0 <==> c & 0x0800 == 0
    ensures ShiftWord(c) & 0x0800 != 0 <==> c & 0x0400 != 0
    ensures ShiftWord(c) & 0x0400 != 0 <==> c & 0x0200 != 0
    ensures ShiftWord(c) & 0x0200 != 0 <==> c & 0x0100 != 0
    ensures ShiftWord(c) & 0x0100 != 0 <==> c & 0x0080 != 0
    ensures ShiftWord(c) & 0x0080 != 0 <==> c & 0x0040 != 0
    ensures ShiftWord(c) & 0x0040 != 0 <==> c & 0x0020 != 0
    ensures ShiftWord(c) & 0x0020 != 0 <==> c & 0x0010 == 0
    ensures ShiftWord(c) & 0x0010 != 0 <==> c & 0x0008 != 0
    ensures ShiftWord(c) & 0x0008 != 0 <==> c & 0x0004 != 0
    ensures ShiftWord(c) & 0x0004 != 0 <==> c & 0x0002 != 0
    ensures ShiftWord(c) & 0x0002 != 0 <==> c & 0x0001 != 0
    ensures ShiftWord(c) & 0x0001 != 0 <==> true
  {
  }

  lemma ShiftBit(c: bv16)
    ensures Bit(ShiftWord(c), 0) == Bit(c, 1)
    ensures Bit(ShiftWord(c), 1) == Bit(c, 2)
    ensures Bit(ShiftWord(c), 2) == Bit(c, 3)
    ensures Bit(ShiftWord(c), 3) == (Bit(c, 4) != Bit(c, 0))
    ensures Bit(ShiftWord(c), 4) == Bit(c, 5)
    ensures Bit(ShiftWord(c), 5) == Bit(c, 6)
    ensures Bit(ShiftWord(c), 6) == Bit(c, 7)
    ensures Bit(ShiftWord(c), 7) == Bit(c, 8)
    ensures Bit(ShiftWord(c), 8) == Bit(c, 9)
    ensures Bit(ShiftWord(c), 9) == Bit(c, 10)
    ensures Bit(ShiftWord(c), 10) == (Bit(c, 11) != Bit(c, 0))
    ensures Bit(ShiftWord(c), 11) == Bit(c, 12)
    ensures Bit(ShiftWord(c), 12) == Bit(c, 13)
    ensures Bit(ShiftWord(c), 13) == Bit(c, 14)
    ensures Bit(ShiftWord(c), 14) == Bit(c, 15)
    ensures Bit(ShiftWord(c), 15) == Bit(c, 0)
  {
    if c & 0x8000 != 0 {
      ShiftReduce(c);
    } else {
      ShiftClear(c);
    }
  }

  lemma SamePlaces(a: seq<bool>, b: seq<bool>)
    requires |a| == 16 && |b| == 16
    requires a[0] == b[0] && a[1] == b[1] && a[2] == b[2] && a[3] == b[3]
    requires a[4] == b[4] && a[5] == b[5] && a[6] == b[6] && a[7] == b[7]
    requires a[8] == b[8] && a[9] == b[9] && a[10] == b[10] && a[11] == b[11]
    requires a[12] == b[12] && a[13] == b[13] && a[14] == b[14] && a[15] == b[15]
    ensures a == b
  {
  }

  /** A shift, place by place. */
  lemma ShiftPlaces(w: seq<bool>, w': seq<bool>)
    requires |w| == 16 && |w'| == 16
    requires w'[3] == (w[4] != w[0]) && w'[10] == (w[11] != w[0]) && w'[15] == w[0]
    requires w'[0] == w[1] && w'[1] == w[2] && w'[2] == w[3] && w'[4] == w[5] && w'[5] == w[6] && w'[6] == w[7]
    requires w'[7] == w[8] && w'[8] == w[9] && w'[9] == w[10] && w'[11] == w[12] && w'[12] == w[13]
    requires w'[13] == w[14] && w'[14] == w[15]
    ensures w' == Shift(w)
  {
    SamePlaces(w', Shift(w));
  }

  /** The word shift is the register shift. */
  lemma ShiftWordBits(c: bv16)
    ensures WordBits(ShiftWord(c)) == Shift(WordBits(c))
  {
    ShiftBit(c);
    ShiftPlaces(WordBits(c), WordBits(ShiftWord(c)));
  }

  function Shift4(c: bv16): bv16 {
    ShiftWord(ShiftWord(ShiftWord(ShiftWord(c))))
  }

  function Shift16(c: bv16): bv16 {
    Shift4(Shift4(Shift4(Shift4(c))))
  }

  /** x^k modulo the generator, as a register. */
  function Power(k: nat): (r: seq<bool>)
    ensures |r| == 16
  {
    Rounds(WordBits(1), k)
  }

  lemma Shift1Bits(k: nat, c: bv16)
    requires Power(k) == WordBits(c)
    ensures Power(k + 1) == WordBits(ShiftWord(c))
  {
    ShiftWordBits(c);
    assert Power(k + 1) == Shift(Power(k));
  }

  lemma Shift4Bits(k: nat, c: bv16)
    requires Power(k) == WordBits(c)
    ensures Power(k + 4) == WordBits(Shift4(c))
  {
    Shift1Bits(k, c);
    Shift1Bits(k + 1, ShiftWord(c));
    Shift1Bits(k + 2, ShiftWord(ShiftWord(c)));
    Shift1Bits(k + 3, ShiftWord(ShiftWord(ShiftWord(c))));
  }

  lemma Shift16Bits(k: nat, c: bv16)
    requires Power(k) == WordBits(c)
    ensures Power(k + 16) == WordBits(Shift16(c))
  {
    Shift4Bits(k, c);
    Shift4Bits(k + 4, Shift4(c));
    Shift4Bits(k + 8, Shift4(Shift4(c)));
    Shift4Bits(k + 12, Shift4(Shift4(Shift4(c))));
  }

  /** x^(16 a) modulo the generator. */
  function Stride(a: nat): bv16 {
    if a == 0 then 1 else Shift16(Stride(a - 1))
  }

  lemma {:induction false} StrideBits(a: nat)
    ensures Power(16 * a) == WordBits(Stride(a))
  {
    if a > 0 {
      StrideBits(a - 1);
      Shift16Bits(16 * a - 16, Stride(a - 1));
    }
  }

  lemma Table0()
    ensures Shift16(0x0001) == 0x1021
    ensures Shift16(0x1021) == 0x3730
    ensures Shift16(0x3730) == 0xAA51
    ensures Shift16(0xAA51) == 0xB861
    ensures Shift16(0xB861) == 0xEB23
    ensures Shift16(0xEB23) == 0xD849
  {
  }

  lemma Table1()
    ensures Shift16(0xD849) == 0x4563
    ensures Shift16(0x4563) == 0xAEFC
    ensures Shift16(0xAEFC) == 0x10E2
    ensures Shift16(0x10E2) == 0xDE1F
    ensures Shift16(0xDE1F) == 0xD5F6
    ensures Shift16(0xD5F6) == 0x650B
  {
  }

  lemma Table2()
    ensures Shift16(0x650B) == 0x45B4
    ensures Shift16(0x45B4) == 0x1566
    ensures Shift16(0x1566) == 0xF0E6
    ensures Shift16(0xF0E6) == 0x8E29
    ensures Shift16(0x8E29) == 0x8DDC
    ensures Shift16(0x8DDC) == 0x6735
  {
  }

  /** The strides x^16, ..., x^288. */
  lemma StrideValues()
    ensures Stride(1) == 0x1021 && Stride(2) == 0x3730 && Stride(3) == 0xAA51 && Stride(4) == 0xB861 && Stride(5) == 0xEB23 && Stride(6) == 0xD849
    ensures Stride(7) == 0x4563 && Stride(8) == 0xAEFC && Stride(9) == 0x10E2 && Stride(10) == 0xDE1F && Stride(11) == 0xD5F6 && Stride(12) == 0x650B
    ensures Stride(13) == 0x45B4 && Stride(14) == 0x1566 && Stride(15) == 0xF0E6 && Stride(16) == 0x8E29 && Stride(17) == 0x8DDC && Stride(18) == 0x6735
  {
    Table0();
    Table1();
    Table2();
    assert Stride(0) == 1;
    StrideNext(0);
    StrideNext(1);
    StrideNext(2);
    StrideNext(3);
    StrideNext(4);
    StrideNext(5);
    StrideNext(6);
    StrideNext(7);
    StrideNext(8);
    StrideNext(9);
    StrideNext(10);
    StrideNext(11);
    StrideNext(12);
    StrideNext(13);
    StrideNext(14);
    StrideNext(15);
    StrideNext(16);
    StrideNext(17);
  }

  lemma StrideNext(a: nat)
    ensures Stride(a + 1) == Shift16(Stride(a))
  {
  }

  /** Every stride has two terms at least. */
  lemma TwoTerms(a: nat) returns (i: nat, j: nat)
    requires 1 <= a <= 18
    ensures i < j < 16 && Power(16 * a)[i] && Power(16 * a)[j]
  {
    StrideBits(a);
    i, j := StrideTerms(a);
  }

  lemma StrideTerms(a: nat) returns (i: nat, j: nat)
    requires 1 <= a <= 18
    ensures i < j < 16 && Bit(Stride(a), i) && Bit(Stride(a), j)
  {
    StrideValues();
    match a {
      case 1 => i, j := 3, 10;
      case 2 => i, j := 2, 3;
      case 3 => i, j := 0, 2;
      case 4 => i, j := 0, 2;
      case 5 => i, j := 0, 1;
      case 6 => i, j := 0, 1;
      case 7 => i, j := 1, 5;
      case 8 => i, j := 0, 2;
      case 9 => i, j := 3, 8;
      case 10 => i, j := 0, 1;
      case 11 => i, j := 0, 1;
      case 12 => i, j := 1, 2;
      case 13 => i, j := 1, 5;
      case 14 => i, j := 3, 5;
      case 15 => i, j := 0, 1;
      case 16 => i, j := 0, 4;
      case 17 => i, j := 0, 4;
      case _ => i, j := 1, 2;
    }
  }

  lemma OneBits()
    ensures forall i :: 0 <= i < 16 ==> (WordBits(1)[i] <==> i == 15)
  {
    forall i | 0 <= i < 16 ensures WordBits(1)[i] <==> i == 15 {
      assert WordBits(1)[i] == Bit(1, i);
    }
  }

  /** x^0, ..., x^15 are single terms. */
  lemma {:induction false} SingleTerm(b: nat)
    requires b < 16
    ensures forall i :: 0 <= i < 16 ==> (Power(b)[i] <==> i == 15 - b)
  {
    if b == 0 {
      OneBits();
    } else {
      SingleTerm(b - 1);
      var w := Power(b - 1);
      assert Power(b) == Shift(w) && !w[0];
      forall i | 0 <= i < 16 ensures Power(b)[i] <==> i == 15 - b {
        assert Shift(w)[i] == (i < 15 && w[i + 1]);
      }
    }
  }

  lemma {:induction false} PowerPeriodic(d: nat, b: nat)
    requires Power(d) == Power(0)
    ensures Power(d + b) == Power(b)
  {
    if b > 0 {
      PowerPeriodic(d, b - 1);
    }
  }

  lemma StrideNotSingle(a: nat, b: nat)
    requires 1 <= a <= 18 && b < 16
    ensures Power(16 * a) != Power(b)
  {
    var i, j := TwoTerms(a);
    SingleTerm(b);
  }

  lemma RoundUp(d: nat) returns (a: nat, b: nat)
    requires 1 <= d <= 287
    ensures 1 <= a <= 18 && b < 16 && d + b == 16 * a
  {
    b := (16 - d % 16) % 16;
    a := (d + b) / 16;
  }

  /** x^d is not 1 for d below 288. */
  lemma NoShortPeriod(d: nat)
    requires 1 <= d <= 287
    ensures Power(d) != Power(0)
  {
    var a, b := RoundUp(d);
    StrideNotSingle(a, b);
    if Power(d) == Power(0) {
      PowerPeriodic(d, b);
    }
  }
}
