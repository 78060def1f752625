/** CRC-16/XMODEM, the checksum of internal/tonaddr/tonaddr.go. A uint16 register
    is its sixteen bits, leading first. */
module Crc16 {
  import opened Bits
  import opened Gf2

  /** The places of uint16 0x1021. */
  predicate IsTap(i: int) {
    i == 3 || i == 10 || i == 15
  }

  /** One round of the inner loop. */
  function Shift(c: seq<bool>): (r: seq<bool>)
    requires |c| == 16
    ensures |r| == 16
  {
    seq(16, i requires 0 <= i < 16 => if c[0] && IsTap(i) then i == 15 || !c[i + 1] else i < 15 && c[i + 1])
  }

  /** One message bit fed into the register. */
  function Feed(c: seq<bool>, b: bool): (r: seq<bool>)
    requires |c| == 16
    ensures |r| == 16
  {
    Shift(c[0 := c[0] != b])
  }

  /** The register after the message m, started from c. */
  function Register(c: seq<bool>, m: seq<bool>): (r: seq<bool>)
    requires |c| == 16
    ensures |r| == 16
  {
    if m == [] then c else Feed(Register(c, m[..|m| - 1]), m[|m| - 1])
  }

  function Checksum(data: seq<Byte>): (r: seq<bool>)
    ensures |r| == 16
  {
    Register(Zeros(16), BytesToBits(data))
  }

  /** k rounds without input. */
  function Rounds(c: seq<bool>, k: nat): (r: seq<bool>)
    requires |c| == 16
    ensures |r| == 16
  {
    if k == 0 then c else Shift(Rounds(c, k - 1))
  }

  // ---- The checksum is the remainder of M(x) * x^16 ----

  /** The quotient bits the register shifts out. */
  function Quotient(m: seq<bool>): (q: seq<bool>)
    ensures |q| == |m|
  {
    if m == [] then []
    else
      var n := |m| - 1;
      Quotient(m[..n]) + [Register(Zeros(16), m[..n])[0] != m[n]]
  }

  /** One step of long division: bring down a bit, subtract the generator if the
      leading coefficient is set. */
  lemma DivisionStep(c: seq<bool>, b: bool, g: seq<bool>)
    requires |c| == 16
    requires g == if c[0] != b then Generator() else Zeros(17)
    ensures Xor(Xor(c + [false], [b] + Zeros(16)), g) == [false] + Feed(c, b)
  {
    var l, r, x := Xor(Xor(c + [false], [b] + Zeros(16)), g), [false] + Feed(c, b), c[0 := c[0] != b];
    forall i | 0 <= i < 17 ensures l[i] == r[i] {
      if 0 < i {
        assert ([b] + Zeros(16))[i] == Zeros(16)[i - 1];
        assert r[i] == Shift(x)[i - 1];
      }
    }
  }

  /** The same step at the end of a dividend whose first n places are cleared. */
  lemma AlignStep(p: seq<bool>, b: bool, product: seq<bool>, c: seq<bool>, g: seq<bool>, c': seq<bool>)
    requires |product| == |p| + 16 && |c| == 16 && |g| == 17 && |c'| == 16
    requires Xor(p + Zeros(16), product) == Zeros(|p|) + c
    requires Xor(Xor(c + [false], [b] + Zeros(16)), g) == [false] + c'
    ensures Xor((p + [b]) + Zeros(16), Xor(product + [false], Zeros(|p|) + g)) == Zeros(|p| + 1) + c'
  {
    var n, z := |p|, Zeros(16);
    var before, step := Xor(p + z, product), Xor(Xor(c + [false], [b] + z), g);
    var after, want := Xor((p + [b]) + z, Xor(product + [false], Zeros(n) + g)), Zeros(n + 1) + c';
    forall i | 0 <= i < n + 17 ensures after[i] == want[i] {
      if i < n {
        assert before[i] == (Zeros(n) + c)[i];
      } else {
        assert i < n + 16 ==> before[i] == (Zeros(n) + c)[i];
        assert step[i - n] == ([false] + c')[i - n];
      }
    }
  }

  /** Appending a message bit appends a quotient bit and feeds the register. */
  lemma DivisionExtends(p: seq<bool>, b: bool, q: seq<bool>, c: seq<bool>)
    requires Divides(p, q, c)
    ensures Divides(p + [b], q + [c[0] != b], Feed(c, b))
  {
    var n, t := |p|, c[0] != b;
    var g := if t then Generator() else Zeros(17);
    DivisionStep(c, b, g);
    AlignStep(p, b, Mul(q, Generator()), c, g, Feed(c, b));
    assert (q + [t])[..n] == q;
    assert Zeros(n) + Zeros(17) == Zeros(n + 17);
    assert Mul(q + [t], Generator()) == Xor(Mul(q, Generator()) + [false], Zeros(n) + g);
  }

  lemma {:induction false} RegisterDivides(m: seq<bool>)
    ensures Divides(m, Quotient(m), Register(Zeros(16), m))
  {
    if m == [] {
      assert Mul([], Generator()) == Zeros(16);
    } else {
      var n := |m| - 1;
      var p, b, q, c := m[..n], m[n], Quotient(m[..n]), Register(Zeros(16), m[..n]);
      assert m == p + [b] && Quotient(m) == q + [c[0] != b] && Register(Zeros(16), m) == Feed(c, b);
      RegisterDivides(p);
      DivisionExtends(p, b, q, c);
    }
  }

  /** The checksum is exactly the remainder of M(x) * x^16. */
  lemma ChecksumIsRemainder(data: seq<Byte>, r: seq<bool>)
    ensures IsRemainder(BytesToBits(data), r) <==> r == Checksum(data)
  {
    var m := BytesToBits(data);
    RegisterDivides(m);
    assert IsRemainder(m, Checksum(data));
    if IsRemainder(m, r) {
      RemainderUnique(m, r, Checksum(data));
    }
  }

  // ---- Linearity ----

  lemma FeedLinear(a: seq<bool>, b: seq<bool>, x: bool, y: bool)
    requires |a| == 16 && |b| == 16
    ensures Feed(Xor(a, b), x != y) == Xor(Feed(a, x), Feed(b, y))
  {
  }

  lemma {:induction false} RegisterLinear(a: seq<bool>, b: seq<bool>, m: seq<bool>, k: seq<bool>)
    requires |a| == 16 && |b| == 16 && |m| == |k|
    ensures Register(Xor(a, b), Xor(m, k)) == Xor(Register(a, m), Register(b, k))
  {
    if m != [] {
      var n := |m| - 1;
      assert Xor(m, k)[..n] == Xor(m[..n], k[..n]);
      RegisterLinear(a, b, m[..n], k[..n]);
      FeedLinear(Register(a, m[..n]), Register(b, k[..n]), m[n], k[n]);
    }
  }

  lemma {:induction false} RegisterConcat(c: seq<bool>, m: seq<bool>, k: seq<bool>)
    requires |c| == 16
    ensures Register(c, m + k) == Register(Register(c, m), k)
  {
    if k == [] {
      assert m + k == m;
    } else {
      var n := |k| - 1;
      assert (m + k)[..|m + k| - 1] == m + k[..n];
      RegisterConcat(c, m, k[..n]);
    }
  }

  lemma {:induction false} RegisterZeros(c: seq<bool>, k: nat)
    requires |c| == 16
    ensures Register(c, Zeros(k)) == Rounds(c, k)
  {
    if k > 0 {
      assert Zeros(k)[..k - 1] == Zeros(k - 1);
      RegisterZeros(c, k - 1);
      var r := Rounds(c, k - 1);
      assert r[0 := r[0] != false] == r;
    }
  }

  // ---- Loading several bits at once ----

  /** c with the bits p added to its leading places. */
  function Load(c: seq<bool>, p: seq<bool>): (r: seq<bool>)
    requires |p| <= |c|
    ensures |r| == |c|
    ensures forall i :: 0 <= i < |c| ==> r[i] == (if i < |p| then c[i] != p[i] else c[i])
  {
    seq(|c|, i requires 0 <= i < |c| => if i < |p| then c[i] != p[i] else c[i])
  }

  lemma {:induction false} RoundsFront(c: seq<bool>, k: nat)
    requires |c| == 16
    ensures Rounds(Shift(c), k) == Rounds(c, k + 1)
  {
    if k > 0 {
      RoundsFront(c, k - 1);
    }
  }

  lemma RegisterFront(c: seq<bool>, p: seq<bool>)
    requires |c| == 16 && p != []
    ensures Register(c, p) == Register(Feed(c, p[0]), p[1..])
  {
    assert p == [p[0]] + p[1..];
    RegisterConcat(c, [p[0]], p[1..]);
    assert [p[0]][..0] == [];
  }

  /** Up to sixteen message bits may be loaded first and shifted afterwards: the
      byte-wise loop is the bit-wise one. */
  lemma {:induction false} LoadThenShift(c: seq<bool>, p: seq<bool>)
    requires |c| == 16 && |p| <= 16
    ensures Register(c, p) == Rounds(Load(c, p), |p|)
    decreases |p|
  {
    if p == [] {
      assert Load(c, p) == c;
    } else {
      RegisterFront(c, p);
      LoadThenShift(Feed(c, p[0]), p[1..]);
      assert Load(Feed(c, p[0]), p[1..]) == Shift(Load(c, p));
      RoundsFront(Load(c, p), |p| - 1);
    }
  }

  ghost predicate IsZero(c: seq<bool>) {
    forall i :: 0 <= i < |c| ==> !c[i]
  }

  lemma ShiftZero(c: seq<bool>)
    requires |c| == 16
    ensures IsZero(Shift(c)) <==> IsZero(c)
  {
    if IsZero(Shift(c)) {
      assert !Shift(c)[15] && IsTap(15);
      forall i | 0 < i < 16 ensures !c[i] {
        assert !Shift(c)[i - 1];
      }
    }
  }

  lemma {:induction false} RoundsZero(c: seq<bool>, k: nat)
    requires |c| == 16
    ensures IsZero(Rounds(c, k)) <==> IsZero(c)
  {
    if k > 0 {
      RoundsZero(c, k - 1);
      ShiftZero(Rounds(c, k - 1));
    }
  }

  /** Sixteen bits or fewer clear the register exactly when they equal its
      leading bits and the rest of it is clear. */
  lemma Clears(c: seq<bool>, p: seq<bool>)
    requires |c| == 16 && |p| <= 16
    ensures IsZero(Register(c, p)) <==> c == p + Zeros(16 - |p|)
  {
    LoadThenShift(c, p);
    var x := Load(c, p);
    RoundsZero(x, |p|);
    if IsZero(Register(c, p)) {
      assert forall i :: 0 <= i < 16 ==> !x[i];
    }
  }

  /** A message passes the checksum test iff the checksum of message and trailer
      together is zero. */
  lemma ChecksumTest(data: seq<Byte>, trailer: seq<Byte>)
    requires |trailer| == 2
    ensures IsZero(Checksum(data + trailer)) <==> Checksum(data) == BytesToBits(trailer)
  {
    var m, t := BytesToBits(data), BytesToBits(trailer);
    BytesToBitsConcat(data, trailer);
    assert Checksum(data + trailer) == Register(Zeros(16), m + t);
    RegisterConcat(Zeros(16), m, t);
    Clears(Register(Zeros(16), m), t);
    assert t + Zeros(0) == t;
  }

  lemma LowBit()
    ensures BytesToBits([1]) == Zeros(7) + [true]
  {
    assert [1][..0] == [];
    assert ToBits(1, 8) == Zeros(7) + [true] by {
      assert ToBits(0, 4) == Zeros(4);
    }
  }

  lemma TapBits(p: seq<Byte>)
    requires p == [0x10, 0x21]
    ensures forall i :: 0 <= i < 16 ==> BytesToBits(p)[i] == (i == 3 || i == 10 || i == 15)
  {
    hide ToBits;
    BytesToBitsAppend([], 0x10);
    BytesToBitsAppend([0x10], 0x21);
    assert p == [0x10] + [0x21];
    HighTap();
    LowTaps();
  }

  lemma HighTap()
    ensures forall i :: 0 <= i < 8 ==> ToBits(0x10, 8)[i] == (i == 3)
  {
    assert ToBits(1, 4) == [false, false, false, true];
  }

  lemma LowTaps()
    ensures forall i :: 0 <= i < 8 ==> ToBits(0x21, 8)[i] == (i == 2 || i == 7)
  {
    assert ToBits(2, 4) == [false, false, true, false];
  }

  /** The checksum of the byte 1 is 0x1021, the generator without its leading term. */
  lemma OneByte()
    ensures Checksum([1]) == BytesToBits([0x10, 0x21])
  {
    hide BytesToBits, Register;
    var z := Zeros(16);
    LowBit();
    TapBits([0x10, 0x21]);
    LeadingZeros(7, [true]);
    OneBit(z, true);
    var c, t := z[0 := true], BytesToBits([0x10, 0x21]);
    assert Checksum([1]) == Shift(c);
    forall i | 0 <= i < 16 ensures Shift(c)[i] == t[i] {
      assert i < 15 ==> !z[i + 1];
    }
  }

  lemma OneBit(c: seq<bool>, b: bool)
    requires |c| == 16
    ensures Register(c, [b]) == Feed(c, b)
  {
    assert [b][..0] == [];
    assert Register(c, []) == c;
  }

  // ---- Zeros before and after ----

  lemma LeadingZeros(k: nat, m: seq<bool>)
    ensures Register(Zeros(16), Zeros(k) + m) == Register(Zeros(16), m)
  {
    var z := Zeros(16);
    RegisterConcat(z, Zeros(k), m);
    RegisterZeros(z, k);
    RoundsZero(z, k);
    assert Rounds(z, k) == z;
  }

  lemma TrailingZeros(c: seq<bool>, m: seq<bool>, k: nat)
    requires |c| == 16
    ensures IsZero(Register(c, m + Zeros(k))) <==> IsZero(Register(c, m))
  {
    var r := Register(c, m);
    RegisterConcat(c, m, Zeros(k));
    RegisterZeros(r, k);
    RoundsZero(r, k);
  }

  // ---- The loop ----

  /** The bits of uint16 0x1021. */
  function Taps(): (r: seq<bool>)
    ensures |r| == 16
  {
    seq(16, i => IsTap(i))
  }

  /** The shift in the form of the code: left by one, then the conditional xor. */
  lemma ShiftForm(c: seq<bool>)
    requires |c| == 16
    ensures Shift(c) == if c[0] then Xor(c[1..] + [false], Taps()) else c[1..] + [false]
  {
  }

  /** The checksum loop: bytes outside, eight rounds inside. */
  method ComputeCrc16(data: seq<Byte>) returns (crc: seq<bool>)
    ensures |crc| == 16 && crc == Checksum(data)
    ensures IsRemainder(BytesToBits(data), crc)
  {
    crc := Zeros(16);
    for k := 0 to |data|
      invariant |crc| == 16 && crc == Checksum(data[..k])
    {
      ghost var before := crc;
      crc := Load(crc, ToBits(data[k], 8));
      ghost var loaded := crc;
      for i := 0 to 8
        invariant |crc| == 16 && crc == Rounds(loaded, i)
      {
        var next := crc[1..] + [false];
        ShiftForm(crc);
        if crc[0] {
          crc := Xor(next, Taps());
        } else {
          crc := next;
        }
      }
      LoadThenShift(before, ToBits(data[k], 8));
      ChecksumAppend(data[..k], data[k]);
      assert data[..k + 1] == data[..k] + [data[k]];
    }
    assert data[..|data|] == data;
    ChecksumIsRemainder(data, crc);
  }

  lemma ChecksumAppend(data: seq<Byte>, b: Byte)
    ensures Checksum(data + [b]) == Register(Checksum(data), ToBits(b, 8))
  {
    assert (data + [b])[..|data|] == data;
    RegisterConcat(Zeros(16), BytesToBits(data), ToBits(b, 8));
  }
}
