/** What the checksum detects: two different messages of at most 288 bits with
    the same checksum differ in an even number of bits, in at least four, and over
    a span of more than sixteen. */
module CrcDetection {
  import opened Bits
  import opened Gf2
  import opened Crc16
  import opened CrcPeriod

  // ---- Parity: the generator is a multiple of x + 1 ----

  /** Whether the number of set bits is odd. */
  function Odd(m: seq<bool>): bool {
    if m == [] then false else Odd(m[..|m| - 1]) != m[|m| - 1]
  }

  lemma {:induction false} OddWeight(m: seq<bool>)
    ensures Odd(m) <==> Weight(m) % 2 == 1
  {
    if m != [] {
      OddWeight(m[..|m| - 1]);
    }
  }

  lemma {:induction false} OddXor(a: seq<bool>, b: seq<bool>)
    requires |a| == |b|
    ensures Odd(Xor(a, b)) == (Odd(a) != Odd(b))
  {
    if a != [] {
      var n := |a| - 1;
      OddXor(a[..n], b[..n]);
      assert Xor(a, b)[..n] == Xor(a[..n], b[..n]);
    }
  }

  lemma {:induction false} OddConcat(a: seq<bool>, b: seq<bool>)
    ensures Odd(a + b) == (Odd(a) != Odd(b))
  {
    if b == [] {
      assert a + b == a;
    } else {
      var n := |b| - 1;
      OddConcat(a, b[..n]);
      assert (a + b)[..|a| + n] == a + b[..n];
    }
  }

  lemma {:induction false} OddZeros(k: nat)
    ensures !Odd(Zeros(k))
  {
    if k > 0 {
      OddZeros(k - 1);
      assert Zeros(k)[..k - 1] == Zeros(k - 1);
    }
  }

  lemma OddSet(m: seq<bool>, i: nat, b: bool)
    requires i < |m|
    ensures Odd(m[i := b]) == (Odd(m) != (b != m[i]))
  {
    var l, r := m[..i], m[i + 1..];
    OddConcat(l + [m[i]], r);
    OddConcat(l, [m[i]]);
    OddConcat(l + [b], r);
    OddConcat(l, [b]);
    assert m == (l + [m[i]]) + r && m[i := b] == (l + [b]) + r;
  }

  lemma TapsOdd()
    ensures Odd(Taps())
  {
    var z := Zeros(16);
    OddZeros(16);
    OddSet(z, 3, true);
    OddSet(z[3 := true], 10, true);
    OddSet(z[3 := true][10 := true], 15, true);
    assert Taps() == z[3 := true][10 := true][15 := true];
  }

  lemma OddNext(c: seq<bool>)
    requires |c| == 16
    ensures Odd(c) == (Odd(c[1..] + [false]) != c[0])
  {
    OddConcat([c[0]], c[1..]);
    OddConcat(c[1..], [false]);
    assert c == [c[0]] + c[1..];
  }

  lemma ShiftParity(c: seq<bool>)
    requires |c| == 16
    ensures Odd(Shift(c)) == Odd(c)
  {
    var next, r := c[1..] + [false], Shift(c);
    OddNext(c);
    ShiftForm(c);
    if c[0] {
      TapsOdd();
      OddXor(next, Taps());
      assert r == Xor(next, Taps());
    } else {
      assert r == next;
    }
  }

  lemma {:induction false} RegisterParity(c: seq<bool>, m: seq<bool>)
    requires |c| == 16
    ensures Odd(Register(c, m)) == (Odd(c) != Odd(m))
  {
    if m != [] {
      var n := |m| - 1;
      var r := Register(c, m[..n]);
      RegisterParity(c, m[..n]);
      OddSet(r, 0, r[0] != m[n]);
      ShiftParity(r[0 := r[0] != m[n]]);
    }
  }

  lemma EvenWeight(e: seq<bool>)
    requires IsZero(Register(Zeros(16), e))
    ensures Weight(e) % 2 == 0
  {
    RegisterParity(Zeros(16), e);
    OddZeros(16);
    assert Register(Zeros(16), e) == Zeros(16);
    OddWeight(e);
  }

  // ---- Bursts ----

  lemma BurstForm(f: nat, p: seq<bool>, k: nat)
    requires |p| <= 16
    requires IsZero(Register(Zeros(16), Zeros(f) + (p + Zeros(k))))
    ensures IsZero(p)
  {
    hide Register;
    var z := Zeros(16);
    LeadingZeros(f, p + Zeros(k));
    TrailingZeros(z, p, k);
    Clears(z, p);
    var w := p + Zeros(16 - |p|);
    forall i | 0 <= i < |p| ensures !p[i] {
      assert w[i] == z[i];
    }
  }

  lemma Window(e: seq<bool>, f: nat, t: nat)
    requires f <= t <= |e|
    requires forall i :: 0 <= i < |e| && e[i] ==> f <= i < t
    ensures e == Zeros(f) + (e[f..t] + Zeros(|e| - t))
    ensures IsZero(e[f..t]) ==> IsZero(e)
  {
    assert forall i :: f <= i < t ==> e[i] == e[f..t][i - f];
  }

  /** An error within sixteen adjacent bits shows in the checksum. */
  lemma BurstShows(e: seq<bool>, f: nat, t: nat)
    requires f <= t <= |e| && t - f <= 16
    requires forall i :: 0 <= i < |e| && e[i] ==> f <= i < t
    requires IsZero(Register(Zeros(16), e))
    ensures IsZero(e)
  {
    hide Register, Zeros, IsZero;
    Window(e, f, t);
    BurstForm(f, e[f..t], |e| - t);
  }

  // ---- Two set bits ----

  lemma ShiftInjective(x: seq<bool>, y: seq<bool>)
    requires |x| == 16 && |y| == 16 && Shift(x) == Shift(y)
    ensures x == y
  {
    assert IsTap(15) && Shift(x)[15] == x[0] && Shift(y)[15] == y[0];
    forall i | 1 <= i < 16 ensures x[i] == y[i] {
      assert Shift(x)[i - 1] == Shift(y)[i - 1];
    }
  }

  lemma {:induction false} PowerCancel(d: nat, b: nat)
    requires Power(d + b) == Power(b)
    ensures Power(d) == Power(0)
  {
    if b > 0 {
      ShiftInjective(Power(d + b - 1), Power(b - 1));
      PowerCancel(d, b - 1);
    }
  }

  /** The register after a leading one and d - 1 zeros is x^(d + 15). */
  lemma OneThenZeros(d: nat)
    requires d >= 1
    ensures Register(Zeros(16), [true] + Zeros(d - 1)) == Power(15 + d)
  {
    var z, top := Zeros(16), Zeros(16)[0 := true];
    SingleTerm(15);
    assert Power(15) == top;
    RegisterConcat(z, [true], Zeros(d - 1));
    assert [true][..0] == [];
    assert Register(z, [true]) == Shift(top) == Power(16);
    RegisterZeros(Power(16), d - 1);
    RoundsSum(WordBits(1), 16, d - 1);
  }

  lemma {:induction false} RoundsSum(c: seq<bool>, j: nat, k: nat)
    requires |c| == 16
    ensures Rounds(Rounds(c, j), k) == Rounds(c, j + k)
  {
    if k > 0 {
      RoundsSum(c, j, k - 1);
    }
  }

  lemma OneMoreOne(c: seq<bool>)
    requires |c| == 16 && IsZero(Feed(c, true))
    ensures c == Power(15)
  {
    var d := c[0 := !c[0]];
    ShiftZero(d);
    SingleTerm(15);
    forall k | 0 <= k < 16 ensures c[k] == Power(15)[k] {
      assert !d[k];
    }
  }

  lemma PairForm(i: nat, d: nat, k: nat)
    requires 1 <= d <= 287
    ensures !IsZero(Register(Zeros(16), Zeros(i) + (([true] + Zeros(d - 1) + [true]) + Zeros(k))))
  {
    var head := [true] + Zeros(d - 1);
    var pair, z := head + [true], Zeros(16);
    LeadingZeros(i, pair + Zeros(k));
    TrailingZeros(z, pair, k);
    OneThenZeros(d);
    assert pair[..d] == head;
    assert Register(z, pair) == Feed(Power(15 + d), true);
    NoShortPeriod(d);
    if IsZero(Feed(Power(15 + d), true)) {
      OneMoreOne(Power(15 + d));
      PowerCancel(d, 15);
    }
  }

  lemma PairSplit(e: seq<bool>, i: nat, j: nat)
    requires i < j < |e|
    requires forall k :: 0 <= k < |e| ==> (e[k] <==> k == i || k == j)
    ensures e == Zeros(i) + (([true] + Zeros(j - i - 1) + [true]) + Zeros(|e| - j - 1))
  {
  }

  /** Two set bits fewer than 288 places apart show in the checksum. */
  lemma PairShows(e: seq<bool>, i: nat, j: nat)
    requires i < j < |e| <= 288
    requires forall k :: 0 <= k < |e| ==> (e[k] <==> k == i || k == j)
    ensures !IsZero(Register(Zeros(16), e))
  {
    PairForm(i, j - i, |e| - j - 1);
    PairSplit(e, i, j);
  }

  /** A nonzero error of at most 288 bits that leaves the checksum zero has an
      even number of bits, at least four of them, spread over more than sixteen. */
  lemma Undetected(e: seq<bool>)
    requires |e| <= 288 && !IsZero(e) && IsZero(Register(Zeros(16), e))
    ensures Weight(e) % 2 == 0 && Weight(e) >= 4
    ensures exists i, j :: 0 <= i < j < |e| && e[i] && e[j] && j - i >= 16
  {
    EvenWeight(e);
    WeightZero(e);
    if Weight(e) == 2 {
      var i, j := WeightTwo(e);
      PairShows(e, i, j);
    }
    Wide(e);
  }

  lemma Wide(e: seq<bool>)
    requires !IsZero(e) && IsZero(Register(Zeros(16), e))
    ensures exists i, j :: 0 <= i < j < |e| && e[i] && e[j] && j - i >= 16
  {
    var f := FirstSet(e);
    var t := if f + 16 <= |e| then f + 16 else |e|;
    if forall i :: 0 <= i < |e| && e[i] ==> f <= i < t {
      BurstShows(e, f, t);
    }
    var j :| 0 <= j < |e| && e[j] && !(f <= j < t);
    assert e[f] && e[j] && j - f >= 16;
  }
}
