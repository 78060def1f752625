/** Amount printing: internal/money/money.go. */
module Money {
  import opened GoText

  const NANO: int := 1_000_000_000

  /** Negation of an int64: the least value is its own negation. */
  function Negate(n: int): int {
    if n == -INT64_LIMIT then n else -n
  }

  /** Go's quotient and remainder truncate toward zero. */
  function Quotient(n: int, d: int): int
    requires d > 0
  {
    if n < 0 then -(-n / d) else n / d
  }

  function Remainder(n: int, d: int): int
    requires d > 0
  {
    n - d * Quotient(n, d)
  }

  function Repeat(c: char, k: nat): (s: string)
    ensures |s| == k
  {
    seq(k, _ => c)
  }

  /** fmt's %09d: zeros fill up to nine places, the sign counted among them. */
  function Pad9(n: int): string {
    var digits := FormatNat(if n < 0 then -n else n);
    var room := (if n < 0 then 8 else 9) - |digits|;
    (if n < 0 then "-" else "") + Repeat('0', if room > 0 then room else 0) + digits
  }

  /** strings.TrimRight with a one-character cutset. */
  function TrimRightOf(s: string, c: char): (r: string)
    ensures r <= s && (r == "" || r[|r| - 1] != c)
    ensures forall i :: |r| <= i < |s| ==> s[i] == c
  {
    if s != "" && s[|s| - 1] == c then TrimRightOf(s[..|s| - 1], c) else s
  }

  function NanoToTONString(n: int): string {
    var m := if n < 0 then Negate(n) else n;
    var whole, frac := Quotient(m, NANO), Remainder(m, NANO);
    var s := if frac == 0 then FormatInt(whole)
             else TrimRightOf(TrimRightOf(FormatInt(whole) + "." + Pad9(frac), '0'), '.');
    if n < 0 then "-" + s else s
  }

  // ---- The reference: reading a decimal amount ----

  function ParseUnsigned(s: string): Option<int> {
    if '.' in s then
      var i := IndexOf(s, '.');
      var w, f := s[..i], s[i + 1..];
      if w != "" && AllDigits(w) && 1 <= |f| <= 9 && AllDigits(f)
      then Some(DecimalValue(w + f) * Pow10(9 - |f|))
      else None
    else if s != "" && AllDigits(s) then Some(DecimalValue(s) * Pow10(9))
    else None
  }

  /** A decimal TON amount in nanoTON: an optional minus sign, digits, and up to
      nine fractional digits, filled up to nine with zeros. */
  function ParseTON(s: string): Option<int> {
    if s != "" && s[0] == '-' then
      var r := ParseUnsigned(s[1..]);
      if r.Some? then Some(-r.value) else None
    else ParseUnsigned(s)
  }

  // ---- Trimming only touches the fraction ----

  lemma {:induction false} ZerosAppend(s: string, k: nat)
    requires AllDigits(s)
    ensures AllDigits(s + Repeat('0', k)) && DecimalValue(s + Repeat('0', k)) == DecimalValue(s) * Pow10(k)
  {
    var t := s + Repeat('0', k);
    if k == 0 {
      assert t == s;
    } else {
      var u := s + Repeat('0', k - 1);
      ZerosAppend(s, k - 1);
      assert t[..|t| - 1] == u && t[|t| - 1] == '0';
      assert DecimalValue(t) == 10 * DecimalValue(u);
      TimesTen(DecimalValue(s), Pow10(k - 1));
    }
  }

  lemma {:induction false} ZerosPrepend(k: nat, s: string)
    requires AllDigits(s)
    ensures AllDigits(Repeat('0', k) + s) && DecimalValue(Repeat('0', k) + s) == DecimalValue(s)
  {
    var t := Repeat('0', k) + s;
    if s == "" {
      assert t == Repeat('0', k);
      if k > 0 {
        ZerosPrepend(k - 1, s);
        assert t[..k - 1] == Repeat('0', k - 1) + s;
      }
    } else {
      var n := |s| - 1;
      ZerosPrepend(k, s[..n]);
      assert t[..|t| - 1] == Repeat('0', k) + s[..n];
    }
  }

  lemma {:induction false} FormatNatLength(n: nat, k: nat)
    requires k >= 1 && n < Pow10(k)
    ensures |FormatNat(n)| <= k
  {
    if n >= 10 {
      assert k >= 2;
      FormatNatLength(n / 10, k - 1);
    }
  }

  lemma Pad9Value(n: nat)
    requires n < NANO
    ensures |Pad9(n)| == 9 && AllDigits(Pad9(n)) && DecimalValue(Pad9(n)) == n
  {
    assert Pow10(3) == 1000;
    assert Pow10(6) == 1_000_000;
    assert Pow10(9) == NANO;
    FormatNatLength(n, 9);
    DecimalRoundTrip(n);
    ZerosPrepend(9 - |FormatNat(n)|, FormatNat(n));
    assert Pad9(n) == Repeat('0', 9 - |FormatNat(n)|) + FormatNat(n);
  }

  /** The printed fraction: the padded one without its trailing zeros. */
  function Fraction(n: int): string {
    TrimRightOf(Pad9(n), '0')
  }

  lemma FractionValue(n: nat)
    requires 0 < n < NANO
    ensures var f := Fraction(n);
      1 <= |f| <= 9 && f[|f| - 1] != '0' && AllDigits(f) && DecimalValue(f) * Pow10(9 - |f|) == n
  {
    var p, f := Pad9(n), Fraction(n);
    Pad9Value(n);
    assert p == f + Repeat('0', 9 - |f|);
    assert AllDigits(f);
    ZerosAppend(f, 9 - |f|);
  }

  lemma {:induction false} TrimStops(prefix: string, t: string, c: char)
    requires TrimRightOf(t, c) != ""
    ensures TrimRightOf(prefix + t, c) == prefix + TrimRightOf(t, c)
  {
    if t[|t| - 1] == c {
      var n := |t| - 1;
      assert (prefix + t)[..|prefix| + n] == prefix + t[..n];
      TrimStops(prefix, t[..n], c);
    }
  }

  /** A magnitude as printed: the whole part in full, then the fraction, if any,
      without a trailing zero. */
  function Shown(m: nat): string {
    FormatNat(m / NANO) + if m % NANO == 0 then "" else "." + Fraction(m % NANO)
  }

  lemma ShownTrimmed(w: string, r: nat)
    requires 0 < r < NANO
    ensures TrimRightOf(TrimRightOf(w + "." + Pad9(r), '0'), '.') == w + "." + Fraction(r)
  {
    hide Pad9, DecimalValue, Pow10;
    FractionValue(r);
    TrimStops(w + ".", Pad9(r), '0');
    var s := w + "." + Fraction(r);
    assert s[|s| - 1] == Fraction(r)[|Fraction(r)| - 1];
  }

  /** What is printed for an int64 other than the least. */
  lemma Printed(n: int)
    requires -INT64_LIMIT < n < INT64_LIMIT
    ensures NanoToTONString(n) == if n < 0 then "-" + Shown(-n) else Shown(n)
  {
    hide Pad9, TrimRightOf, FormatNat, Fraction;
    var m := if n < 0 then -n else n;
    var w, r := FormatNat(m / NANO), m % NANO;
    assert Quotient(m, NANO) == m / NANO && Remainder(m, NANO) == r;
    if r != 0 {
      ShownTrimmed(w, r);
      assert w + "." + Fraction(r) == w + ("." + Fraction(r));
    } else {
      assert w + "" == w;
    }
  }

  lemma ShownTail(m: nat)
    ensures var s := Shown(m);
      && s != "" && s[|s| - 1] != '.' && ('.' in s ==> s[|s| - 1] != '0') && IsDigit(s[0])
      && (s[0] == '0' && |s| > 1 ==> s[1] == '.')
  {
    hide Fraction, DecimalValue, Pow10, FormatNat;
    var w, r := FormatNat(m / NANO), m % NANO;
    NoLeadingZero(m / NANO);
    if r != 0 {
      FractionValue(r);
    } else {
      assert Shown(m) == w;
    }
  }

  /** The output never ends in a dot or in a fractional zero, has a minus sign exactly
      for negative amounts, and no zero before another digit of the whole part. */
  lemma PrintedTail(n: int)
    requires -INT64_LIMIT < n < INT64_LIMIT
    ensures var s := NanoToTONString(n);
      && s != "" && s[|s| - 1] != '.' && ('.' in s ==> s[|s| - 1] != '0')
      && (s[0] == '-' <==> n < 0)
      && var u := if n < 0 then s[1..] else s;
         u != "" && (u[0] == '0' && |u| > 1 ==> u[1] == '.')
  {
    hide NanoToTONString, Shown;
    var m := if n < 0 then -n else n;
    Printed(n);
    ShownTail(m);
    assert ("-" + Shown(m))[1..] == Shown(m);
  }

  lemma Distribute(w: int, p: int, f: int, q: int)
    ensures (w * p + f) * q == w * (p * q) + f * q
  {
  }

  lemma NanoPower()
    ensures Pow10(9) == NANO
  {
    assert Pow10(3) == 1000;
    assert Pow10(6) == 1_000_000;
  }

  lemma ParseJoined(w: string, f: string)
    requires w != "" && AllDigits(w) && 1 <= |f| <= 9 && AllDigits(f)
    ensures ParseUnsigned(w + "." + f) == Some(DecimalValue(w) * Pow10(9) + DecimalValue(f) * Pow10(9 - |f|))
  {
    hide DecimalValue, Pow10;
    DecimalConcat(w, f);
    Pow10Sum(|f|, 9 - |f|);
    Distribute(DecimalValue(w), Pow10(|f|), DecimalValue(f), Pow10(9 - |f|));
    var s := w + "." + f;
    assert s[|w|] == '.';
    assert forall j :: 0 <= j < |w| ==> s[j] == w[j];
    assert IndexOf(s, '.') == |w|;
    assert s[..|w|] == w && s[|w| + 1..] == f;
  }

  lemma UnsignedRoundTrip(m: nat)
    ensures ParseUnsigned(Shown(m)) == Some(m)
  {
    hide Fraction, FormatNat, DecimalValue, Pow10;
    var w, r := FormatNat(m / NANO), m % NANO;
    NanoPower();
    DecimalRoundTrip(m / NANO);
    if r == 0 {
      assert Shown(m) == w;
    } else {
      hide ParseUnsigned;
      FractionValue(r);
      ParseJoined(w, Fraction(r));
      assert Shown(m) == w + "." + Fraction(r);
    }
  }

  /** Reading back what is printed gives the amount, for every int64 but the least. */
  lemma AmountRoundTrip(n: int)
    requires -INT64_LIMIT <= n < INT64_LIMIT
    ensures ParseTON(NanoToTONString(n)) == Some(n) <==> n != -INT64_LIMIT
  {
    hide NanoToTONString, Shown, ParseUnsigned;
    if n == -INT64_LIMIT {
      LeastAmount();
    } else {
      var m := if n < 0 then -n else n;
      Printed(n);
      UnsignedRoundTrip(m);
      ShownTail(m);
      assert ("-" + Shown(m))[1..] == Shown(m);
    }
  }

  lemma TwoMinuses(x: string)
    requires x != "" && x[0] == '-'
    ensures ParseUnsigned(x) == None
  {
    assert !IsDigit(x[0]);
    if '.' in x {
      assert x[..IndexOf(x, '.')][0] == '-';
    }
  }

  lemma FormatLast(n: nat)
    requires n >= 10
    ensures FormatNat(n) == FormatNat(n / 10) + FormatNat(n % 10)
  {
  }

  lemma FormatThree(n: nat)
    requires n >= 1000
    ensures FormatNat(n) == FormatNat(n / 1000) + FormatNat(n / 100 % 10) + FormatNat(n / 10 % 10) + FormatNat(n % 10)
  {
    hide FormatNat;
    FormatLast(n);
    FormatLast(n / 10);
    FormatLast(n / 100);
    assert n / 10 / 10 == n / 100 && n / 100 / 10 == n / 1000;
  }

  lemma FormatDigits()
    ensures FormatNat(0) == "0" && FormatNat(2) == "2" && FormatNat(3) == "3" && FormatNat(4) == "4" && FormatNat(5) == "5"
    ensures FormatNat(6) == "6" && FormatNat(7) == "7" && FormatNat(8) == "8" && FormatNat(9) == "9"
  {
  }

  lemma LeastWhole()
    ensures FormatNat(9223372036) == "9223372036"
  {
    hide FormatNat;
    FormatDigits();
    FormatThree(9223372036);
    FormatThree(9223372);
    FormatThree(9223);
  }

  lemma LeastFraction()
    ensures FormatNat(854775808) == "854775808"
  {
    hide FormatNat;
    FormatDigits();
    FormatThree(854775808);
    FormatThree(854775);
    FormatLast(854);
    FormatLast(85);
  }

  lemma NothingTrimmed(t: string)
    requires t != "" && t[|t| - 1] == '8'
    ensures TrimRightOf(TrimRightOf(t, '0'), '.') == t
  {
  }

  lemma LeastParts()
    ensures FormatInt(-9223372036) == "-9223372036" && Pad9(-854775808) == "-854775808"
  {
    hide FormatNat;
    LeastWhole();
    LeastFraction();
  }

  lemma LeastSplit()
    ensures var n := -9_223_372_036_854_775_808;
      Negate(n) == n && Quotient(n, NANO) == -9223372036 && Remainder(n, NANO) == -854775808
  {
  }

  lemma LeastText(t: string)
    requires t == FormatInt(-9223372036) + "." + Pad9(-854775808) && t != "" && t[|t| - 1] == '8'
    ensures NanoToTONString(-9_223_372_036_854_775_808) == "-" + t
  {
    hide FormatInt, Pad9, TrimRightOf, Quotient, Remainder, Negate;
    LeastSplit();
    NothingTrimmed(t);
  }

  /** The least int64 prints three minus signs, and is not a decimal amount. */
  lemma LeastAmount()
    ensures NanoToTONString(-9_223_372_036_854_775_808) == "--9223372036.-854775808"
    ensures ParseTON(NanoToTONString(-9_223_372_036_854_775_808)) == None
  {
    hide FormatInt, Pad9, NanoToTONString, ParseUnsigned;
    LeastParts();
    var t := "-9223372036" + "." + "-854775808";
    LeastText(t);
    assert ("-" + t)[1..] == t;
    TwoMinuses(t);
  }
}
