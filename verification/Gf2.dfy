/** Polynomials over GF(2) as bit strings, leading coefficient first: the
    independent reference the checksum is proved against. */
module Gf2 {
  import opened Bits

  /** x^16 + x^12 + x^5 + 1. */
  function Generator(): (r: seq<bool>)
    ensures |r| == 17
    ensures forall i :: 0 <= i < 17 ==> r[i] == (i == 0 || i == 4 || i == 11 || i == 16)
  {
    seq(17, i => i == 0 || i == 4 || i == 11 || i == 16)
  }

  /** The product p * g, by Horner's rule on the coefficients of p. */
  function Mul(p: seq<bool>, g: seq<bool>): (r: seq<bool>)
    requires |g| >= 1
    ensures |r| == |p| + |g| - 1
  {
    if p == [] then Zeros(|g| - 1)
    else
      var n := |p| - 1;
      Xor(Mul(p[..n], g) + [false], if p[n] then Zeros(n) + g else Zeros(n + |g|))
  }

  /** q and r are quotient and remainder of m * x^16 by the generator. */
  ghost predicate Divides(m: seq<bool>, q: seq<bool>, r: seq<bool>) {
    && |q| == |m| && |r| == 16
    && Xor(m + Zeros(16), Mul(q, Generator())) == Zeros(|m|) + r
  }

  ghost predicate IsRemainder(m: seq<bool>, r: seq<bool>) {
    exists q :: Divides(m, q, r)
  }

  lemma {:induction false} MulZeros(n: nat, g: seq<bool>)
    requires |g| >= 1
    ensures Mul(Zeros(n), g) == Zeros(n + |g| - 1)
  {
    if n > 0 {
      assert Zeros(n)[..n - 1] == Zeros(n - 1);
      MulZeros(n - 1, g);
    }
  }

  lemma {:induction false} MulLinear(a: seq<bool>, b: seq<bool>, g: seq<bool>)
    requires |a| == |b| && |g| >= 1
    ensures Mul(Xor(a, b), g) == Xor(Mul(a, g), Mul(b, g))
  {
    if a != [] {
      var n := |a| - 1;
      assert Xor(a, b)[..n] == Xor(a[..n], b[..n]);
      MulLinear(a[..n], b[..n], g);
    }
  }

  /** The leading coefficient of a product by a monic g is that of the factor. */
  lemma {:induction false} MulLeading(p: seq<bool>, g: seq<bool>, i: nat)
    requires |g| >= 1 && g[0]
    requires i < |p| && p[i] && forall j :: 0 <= j < i ==> !p[j]
    ensures Mul(p, g)[i]
  {
    var n := |p| - 1;
    if i == n {
      assert p[..n] == Zeros(n);
      MulZeros(n, g);
    } else {
      MulLeading(p[..n], g, i);
    }
  }

  lemma FirstSet(p: seq<bool>) returns (i: nat)
    requires exists k :: 0 <= k < |p| && p[k]
    ensures i < |p| && p[i] && forall j :: 0 <= j < i ==> !p[j]
  {
    i := 0;
    while !p[i]
      invariant i < |p| && forall j :: 0 <= j < i ==> !p[j]
      decreases |p| - i
    {
      i := i + 1;
    }
  }

  /** Multiplying a nonzero polynomial by a monic g leaves a leading coefficient. */
  lemma MulVanishes(p: seq<bool>, g: seq<bool>)
    requires |g| >= 1 && g[0]
    requires forall i :: 0 <= i < |p| ==> !Mul(p, g)[i]
    ensures forall i :: 0 <= i < |p| ==> !p[i]
  {
    if exists k :: 0 <= k < |p| && p[k] {
      var i := FirstSet(p);
      MulLeading(p, g, i);
    }
  }

  /** Two divisions of the same message differ by a multiple of the generator. */
  lemma DivisionsDiffer(m: seq<bool>, q: seq<bool>, r: seq<bool>, q': seq<bool>, r': seq<bool>)
    requires Divides(m, q, r) && Divides(m, q', r')
    ensures Mul(Xor(q, q'), Generator()) == Zeros(|m|) + Xor(r, r')
  {
    MulLinear(q, q', Generator());
    var s, s' := Xor(m + Zeros(16), Mul(q, Generator())), Xor(m + Zeros(16), Mul(q', Generator()));
    assert Xor(Mul(q, Generator()), Mul(q', Generator())) == Xor(s, s');
    assert Xor(Zeros(|m|) + r, Zeros(|m|) + r') == Zeros(|m|) + Xor(r, r');
  }

  /** There is at most one remainder, so `IsRemainder` determines it. */
  lemma RemainderUnique(m: seq<bool>, r: seq<bool>, r': seq<bool>)
    requires IsRemainder(m, r) && IsRemainder(m, r')
    ensures r == r'
  {
    var q :| Divides(m, q, r);
    var q' :| Divides(m, q', r');
    var d := Xor(q, q');
    DivisionsDiffer(m, q, r, q', r');
    MulVanishes(d, Generator());
    assert d == Zeros(|d|);
    MulZeros(|d|, Generator());
    assert Xor(r, r') == Zeros(|m| + 16)[|m|..];
    assert forall k :: 0 <= k < 16 ==> !Xor(r, r')[k];
  }
}
