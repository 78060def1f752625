/** Bit strings, most significant bit first, and the bytes they are cut from. */
module Bits {

  type Byte = x: int | 0 <= x < 256

  function Pow2(k: nat): (r: nat)
    ensures r >= 1
  {
    if k == 0 then 1 else 2 * Pow2(k - 1)
  }

  /** The k low bits of n, most significant first. */
  function ToBits(n: nat, k: nat): (r: seq<bool>)
    ensures |r| == k
  {
    if k == 0 then [] else ToBits(n / 2, k - 1) + [n % 2 == 1]
  }

  function BytesToBits(data: seq<Byte>): (r: seq<bool>)
    ensures |r| == 8 * |data|
  {
    if data == [] then [] else BytesToBits(data[..|data| - 1]) + ToBits(data[|data| - 1], 8)
  }

  function Zeros(k: nat): (r: seq<bool>)
    ensures |r| == k
    ensures forall i :: 0 <= i < k ==> !r[i]
  {
    seq(k, _ => false)
  }

  function Xor(a: seq<bool>, b: seq<bool>): (r: seq<bool>)
    requires |a| == |b|
    ensures |r| == |a|
    ensures forall i :: 0 <= i < |r| ==> r[i] == (a[i] != b[i])
  {
    seq(|a|, i requires 0 <= i < |a| => a[i] != b[i])
  }

  /** Number of set bits. */
  function Weight(m: seq<bool>): nat {
    if m == [] then 0 else Weight(m[..|m| - 1]) + if m[|m| - 1] then 1 else 0
  }

  lemma {:induction false} ToBitsInjective(a: nat, b: nat, k: nat)
    requires a < Pow2(k) && b < Pow2(k)
    requires ToBits(a, k) == ToBits(b, k)
    ensures a == b
  {
    if k > 0 {
      var x, y := ToBits(a / 2, k - 1), ToBits(b / 2, k - 1);
      assert ToBits(a, k)[..k - 1] == x && ToBits(b, k)[..k - 1] == y;
      assert ToBits(a, k)[k - 1] == ToBits(b, k)[k - 1];
      ToBitsInjective(a / 2, b / 2, k - 1);
    }
  }

  lemma BytesToBitsAppend(a: seq<Byte>, b: Byte)
    ensures BytesToBits(a + [b]) == BytesToBits(a) + ToBits(b, 8)
  {
    assert (a + [b])[..|a|] == a;
  }

  lemma Associative<T>(x: seq<T>, y: seq<T>, z: seq<T>)
    ensures (x + y) + z == x + (y + z)
  {
  }

  lemma Snoc<T>(s: seq<T>)
    requires s != []
    ensures s == s[..|s| - 1] + [s[|s| - 1]]
  {
  }

  lemma {:induction false} BytesToBitsConcat(a: seq<Byte>, b: seq<Byte>)
    ensures BytesToBits(a + b) == BytesToBits(a) + BytesToBits(b)
  {
    if b == [] {
      assert a + b == a;
    } else {
      hide BytesToBits, ToBits;
      var n := |b| - 1;
      var c, d := b[..n], b[n];
      BytesToBitsConcat(a, c);
      BytesToBitsAppend(a + c, d);
      BytesToBitsAppend(c, d);
      Snoc(b);
      Associative(a, c, [d]);
      Associative(BytesToBits(a), BytesToBits(c), ToBits(d, 8));
    }
  }

  lemma {:induction false} BytesToBitsInjective(a: seq<Byte>, b: seq<Byte>)
    requires |a| == |b| && BytesToBits(a) == BytesToBits(b)
    ensures a == b
  {
    if a != [] {
      var n := |a| - 1;
      assert Pow2(8) == 256;
      assert BytesToBits(a)[..8 * n] == BytesToBits(a[..n]);
      assert BytesToBits(b)[..8 * n] == BytesToBits(b[..n]);
      assert BytesToBits(a)[8 * n..] == ToBits(a[n], 8);
      assert BytesToBits(b)[8 * n..] == ToBits(b[n], 8);
      ToBitsInjective(a[n], b[n], 8);
      BytesToBitsInjective(a[..n], b[..n]);
      assert a == a[..n] + [a[n]] && b == b[..n] + [b[n]];
    }
  }

  lemma {:induction false} WeightZero(m: seq<bool>)
    ensures Weight(m) == 0 <==> m == Zeros(|m|)
  {
    if m != [] {
      WeightZero(m[..|m| - 1]);
      assert m == m[..|m| - 1] + [m[|m| - 1]];
    }
  }

  /** A bit string of weight two has exactly two set positions. */
  lemma {:induction false} WeightTwo(m: seq<bool>) returns (i: nat, j: nat)
    requires Weight(m) == 2
    ensures i < j < |m|
    ensures forall k :: 0 <= k < |m| ==> (m[k] <==> k == i || k == j)
  {
    var n := |m| - 1;
    if m[n] {
      i := WeightOne(m[..n]);
      j := n;
    } else {
      i, j := WeightTwo(m[..n]);
    }
  }

  lemma {:induction false} WeightOne(m: seq<bool>) returns (i: nat)
    requires Weight(m) == 1
    ensures i < |m| && forall k :: 0 <= k < |m| ==> (m[k] <==> k == i)
  {
    var n := |m| - 1;
    if m[n] {
      WeightZero(m[..n]);
      i := n;
    } else {
      i := WeightOne(m[..n]);
    }
  }

  function FromBits(m: seq<bool>): (n: nat)
    ensures n < Pow2(|m|)
  {
    if m == [] then 0 else 2 * FromBits(m[..|m| - 1]) + if m[|m| - 1] then 1 else 0
  }

  lemma {:induction false} FromBitsInverse(m: seq<bool>)
    ensures ToBits(FromBits(m), |m|) == m
  {
    if m != [] {
      FromBitsInverse(m[..|m| - 1]);
    }
  }

  lemma SmallPowers()
    ensures Pow2(1) == 2 && Pow2(2) == 4 && Pow2(3) == 8 && Pow2(4) == 16
    ensures Pow2(5) == 32 && Pow2(6) == 64 && Pow2(7) == 128 && Pow2(8) == 256
  {
    assert Pow2(3) == 8;
    assert Pow2(6) == 64;
  }

  lemma {:induction false} ToBitsInverse(n: nat, k: nat)
    requires n < Pow2(k)
    ensures FromBits(ToBits(n, k)) == n
  {
    FromBitsInverse(ToBits(n, k));
    ToBitsInjective(FromBits(ToBits(n, k)), n, k);
  }

  function ByteOf(m: seq<bool>): (b: Byte)
    requires |m| == 8
    ensures ToBits(b, 8) == m
  {
    SmallPowers();
    FromBitsInverse(m);
    FromBits(m)
  }

  lemma ByteOfBits(b: Byte)
    ensures ByteOf(ToBits(b, 8)) == b
  {
    SmallPowers();
    ToBitsInverse(b, 8);
  }
}
