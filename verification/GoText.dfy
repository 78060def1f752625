/** The text conversions of the Go standard library that the service relies on:
    decimal integers, hexadecimal bytes and white space. */
module GoText {
  import opened Bits

  datatype Option<+T> = None | Some(value: T)

  const INT32_LIMIT: int := 0x8000_0000
  const INT64_LIMIT: int := 0x8000_0000_0000_0000

  // ---- Decimal integers: strconv.FormatInt and strconv.ParseInt in base ten ----

  predicate IsDigit(c: char) {
    '0' <= c <= '9'
  }

  predicate AllDigits(s: string) {
    forall i :: 0 <= i < |s| ==> IsDigit(s[i])
  }

  function FormatNat(n: nat): (s: string)
    ensures |s| >= 1 && AllDigits(s)
  {
    var last := ['0' + (n % 10) as char];
    if n < 10 then last else FormatNat(n / 10) + last
  }

  function FormatInt(n: int): string {
    if n < 0 then "-" + FormatNat(-n) else FormatNat(n)
  }

  /** The value of a digit string. */
  function DecimalValue(s: string): (r: int)
    requires AllDigits(s)
    ensures r >= 0
  {
    if s == "" then 0 else 10 * DecimalValue(s[..|s| - 1]) + (s[|s| - 1] - '0') as int
  }

  function Pow10(k: nat): (r: int)
    ensures r >= 1
  {
    if k == 0 then 1 else 10 * Pow10(k - 1)
  }

  lemma {:induction false} Pow10Sum(j: nat, k: nat)
    ensures Pow10(j + k) == Pow10(j) * Pow10(k)
  {
    if j > 0 {
      Pow10Sum(j - 1, k);
    }
  }

  /** Digits count by their place. */
  lemma {:induction false} DecimalConcat(s: string, t: string)
    requires AllDigits(s) && AllDigits(t)
    ensures DecimalValue(s + t) == DecimalValue(s) * Pow10(|t|) + DecimalValue(t)
  {
    if t == "" {
      assert s + t == s;
    } else {
      hide DecimalValue, Pow10;
      var n := |t| - 1;
      DecimalConcat(s, t[..n]);
      DecimalLast(s + t);
      DecimalLast(t);
      assert (s + t)[..|s + t| - 1] == s + t[..n];
      TimesTen(DecimalValue(s), Pow10(n));
      PowerStep(n);
    }
  }

  lemma DecimalLast(s: string)
    requires s != "" && AllDigits(s)
    ensures DecimalValue(s) == 10 * DecimalValue(s[..|s| - 1]) + (s[|s| - 1] - '0') as int
  {
  }

  lemma PowerStep(n: nat)
    ensures Pow10(n + 1) == 10 * Pow10(n)
  {
  }

  lemma TimesTen(v: int, p: int)
    ensures 10 * (v * p) == v * (10 * p)
  {
  }

  /** One digit is worth what its character says. */
  lemma DecimalDigit(c: char)
    requires c in "0123456789"
    ensures AllDigits([c]) && 0 <= DecimalValue([c]) < 10 && "0123456789"[DecimalValue([c])] == c
  {
    assert [c][..0] == "";
  }

  /** An optional sign, at least one digit, and a value within [-limit, limit). */
  function ParseInt(s: string, limit: int): (r: Option<int>)
    ensures r.Some? ==> -limit <= r.value < limit
  {
    var signed := |s| > 0 && (s[0] == '+' || s[0] == '-');
    var digits := if signed then s[1..] else s;
    if digits == "" || !AllDigits(digits) then None
    else
      var v := if signed && s[0] == '-' then -DecimalValue(digits) else DecimalValue(digits);
      if -limit <= v < limit then Some(v) else None
  }

  lemma {:induction false} DecimalRoundTrip(n: nat)
    ensures DecimalValue(FormatNat(n)) == n
  {
    var s := FormatNat(n);
    if n < 10 {
      assert s[..0] == "";
    } else {
      DecimalRoundTrip(n / 10);
      assert s[..|s| - 1] == FormatNat(n / 10);
    }
  }

  /** Formatting is undone by parsing exactly for the integers of the width. */
  lemma IntRoundTrip(n: int, limit: int)
    ensures ParseInt(FormatInt(n), limit) == (if -limit <= n < limit then Some(n) else None)
  {
    var s := FormatInt(n);
    if n < 0 {
      assert s[1..] == FormatNat(-n);
      DecimalRoundTrip(-n);
    } else {
      assert IsDigit(s[0]);
      DecimalRoundTrip(n);
    }
  }

  lemma {:induction false} NoLeadingZero(n: nat)
    ensures FormatNat(n)[0] == '0' <==> n == 0
    ensures n == 0 ==> FormatNat(n) == "0"
  {
    if n >= 10 {
      NoLeadingZero(n / 10);
    }
  }

  /** Digits parse with or without a plus sign, and negated with a minus sign, leading
      zeros and zero itself included, exactly within the width. */
  lemma ParseIntDigits(d: string, limit: int)
    requires d != "" && AllDigits(d)
    ensures ParseInt(d, limit) == ParseInt("+" + d, limit)
      == if -limit <= DecimalValue(d) < limit then Some(DecimalValue(d)) else None
    ensures ParseInt("-" + d, limit) == if -limit <= -DecimalValue(d) < limit then Some(-DecimalValue(d)) else None
  {
    assert IsDigit(d[0]);
    assert ("+" + d)[1..] == d && ("-" + d)[1..] == d;
  }

  /** Nothing else parses. */
  lemma ParseIntOnly(s: string, limit: int)
    requires ParseInt(s, limit).Some?
    ensures exists d :: d != "" && AllDigits(d) && (s == d || s == "+" + d || s == "-" + d)
  {
    if s[0] == '+' || s[0] == '-' {
      assert s == [s[0]] + s[1..];
    }
  }

  /** What an integer looks like in base ten. */
  ghost predicate Reads(s: string, v: int) {
    exists d :: d != "" && AllDigits(d) &&
      ((v == DecimalValue(d) && (s == d || s == "+" + d)) || (v == -DecimalValue(d) && s == "-" + d))
  }

  /** A text parses to exactly the integer it shows, if that is within the width. */
  lemma ParseIntIff(s: string, limit: int, v: int)
    ensures ParseInt(s, limit) == Some(v) <==> Reads(s, v) && -limit <= v < limit
  {
    hide ParseInt, DecimalValue;
    if ParseInt(s, limit) == Some(v) {
      ParseIntOnly(s, limit);
      var d :| d != "" && AllDigits(d) && (s == d || s == "+" + d || s == "-" + d);
      ParseIntDigits(d, limit);
    }
    if Reads(s, v) {
      var d :| d != "" && AllDigits(d) &&
        ((v == DecimalValue(d) && (s == d || s == "+" + d)) || (v == -DecimalValue(d) && s == "-" + d));
      ParseIntDigits(d, limit);
    }
  }

  // ---- Hexadecimal: hex.EncodeToString and hex.DecodeString ----

  function HexDigit(d: nat): (c: char)
    requires d < 16
  {
    if d < 10 then '0' + d as char else 'a' + (d - 10) as char
  }

  function HexValue(c: char): (r: Option<nat>)
    ensures r.Some? ==> r.value < 16
  {
    if '0' <= c <= '9' then Some((c - '0') as nat)
    else if 'a' <= c <= 'f' then Some((c - 'a') as nat + 10)
    else if 'A' <= c <= 'F' then Some((c - 'A') as nat + 10)
    else None
  }

  function HexEncode(data: seq<Byte>): (s: string)
    ensures |s| == 2 * |data|
  {
    if data == [] then ""
    else [HexDigit(data[0] / 16), HexDigit(data[0] % 16)] + HexEncode(data[1..])
  }

  function HexDecode(s: string): (r: Option<seq<Byte>>)
    ensures r.Some? ==> 2 * |r.value| == |s|
  {
    if s == "" then Some([])
    else if |s| == 1 then None
    else
      var hi, lo, rest := HexValue(s[0]), HexValue(s[1]), HexDecode(s[2..]);
      if hi.Some? && lo.Some? && rest.Some? then Some([16 * hi.value + lo.value] + rest.value) else None
  }

  predicate IsHex(c: char) {
    '0' <= c <= '9' || 'a' <= c <= 'f'
  }

  lemma HexDigitRoundTrip(d: nat)
    requires d < 16
    ensures HexValue(HexDigit(d)) == Some(d) && IsHex(HexDigit(d))
  {
  }

  lemma {:induction false} HexRoundTrip(data: seq<Byte>)
    ensures HexDecode(HexEncode(data)) == Some(data)
    ensures forall i :: 0 <= i < |HexEncode(data)| ==> IsHex(HexEncode(data)[i])
  {
    if data != [] {
      var s := HexEncode(data);
      HexRoundTrip(data[1..]);
      assert s[2..] == HexEncode(data[1..]);
      HexDigitRoundTrip(data[0] / 16);
      HexDigitRoundTrip(data[0] % 16);
      assert data == [data[0]] + data[1..];
      forall i | 0 <= i < |s| ensures IsHex(s[i]) {
        if i >= 2 {
          assert s[i] == s[2..][i - 2];
        }
      }
    }
  }

  /** A hexadecimal digit, in lower case. */
  function LowerHex(c: char): char {
    if 'A' <= c <= 'F' then 'a' + (c - 'A') else c
  }

  predicate AnyHex(c: char) {
    '0' <= c <= '9' || 'a' <= c <= 'f' || 'A' <= c <= 'F'
  }

  /** A byte as two hexadecimal digits, the high one first. */
  predicate IsHexPair(b: Byte, hi: char, lo: char) {
    "0123456789abcdef"[b / 16] == LowerHex(hi) && "0123456789abcdef"[b % 16] == LowerHex(lo)
  }

  lemma HexTable(d: nat)
    requires d < 16
    ensures "0123456789abcdef"[d] == if d < 10 then '0' + d as char else 'a' + (d - 10) as char
  {
  }

  lemma HexValueMeans(c: char)
    ensures HexValue(c).Some? <==> AnyHex(c)
    ensures HexValue(c).Some? ==> "0123456789abcdef"[HexValue(c).value] == LowerHex(c)
  {
    if HexValue(c).Some? {
      HexTable(HexValue(c).value);
    }
  }

  lemma PairOf(hi: nat, lo: nat, c: char, d: char)
    requires hi < 16 && lo < 16
    requires "0123456789abcdef"[hi] == LowerHex(c) && "0123456789abcdef"[lo] == LowerHex(d)
    ensures IsHexPair(16 * hi + lo, c, d)
  {
    hide LowerHex;
    assert (16 * hi + lo) / 16 == hi && (16 * hi + lo) % 16 == lo;
  }

  /** Two lower-case digits for each byte. */
  lemma {:induction false} HexEncodeMeans(data: seq<Byte>)
    ensures forall k :: 0 <= k < |data| ==>
      && HexEncode(data)[2 * k] == "0123456789abcdef"[data[k] / 16]
      && HexEncode(data)[2 * k + 1] == "0123456789abcdef"[data[k] % 16]
  {
    if data != [] {
      var s, rest := HexEncode(data), HexEncode(data[1..]);
      HexEncodeMeans(data[1..]);
      HexTable(data[0] / 16);
      HexTable(data[0] % 16);
      forall k | 0 < k < |data|
        ensures s[2 * k] == "0123456789abcdef"[data[k] / 16] && s[2 * k + 1] == "0123456789abcdef"[data[k] % 16]
      {
        assert s[2 * k] == rest[2 * (k - 1)] && s[2 * k + 1] == rest[2 * (k - 1) + 1];
      }
    }
  }

  /** Hexadecimal digits of either case, two for each byte. */
  lemma {:induction false} HexDecodeMeans(s: string)
    ensures HexDecode(s).Some? <==> |s| % 2 == 0 && forall i :: 0 <= i < |s| ==> AnyHex(s[i])
    ensures HexDecode(s).Some? ==>
      forall k :: 0 <= k < |HexDecode(s).value| ==> IsHexPair(HexDecode(s).value[k], s[2 * k], s[2 * k + 1])
  {
    hide IsHexPair, AnyHex, HexValue;
    if |s| == 1 {
    } else if |s| >= 2 {
      var t := s[2..];
      HexDecodeMeans(t);
      HexValueMeans(s[0]);
      HexValueMeans(s[1]);
      assert forall i :: 2 <= i < |s| ==> s[i] == t[i - 2];
      if HexDecode(s).Some? {
        PairOf(HexValue(s[0]).value, HexValue(s[1]).value, s[0], s[1]);
        var r, rest := HexDecode(s).value, HexDecode(t).value;
        forall k | 0 <= k < |r| ensures IsHexPair(r[k], s[2 * k], s[2 * k + 1]) {
          if k > 0 {
            assert r[k] == rest[k - 1] && s[2 * k] == t[2 * (k - 1)] && s[2 * k + 1] == t[2 * (k - 1) + 1];
          }
        }
      }
    }
  }

  lemma HexValueCase(c: char, d: char)
    requires LowerHex(c) == LowerHex(d)
    ensures HexValue(c) == HexValue(d)
  {
  }

  /** So the case of the digits does not matter. */
  lemma {:induction false} HexCase(s: string, t: string)
    requires |s| == |t| && forall i :: 0 <= i < |s| ==> LowerHex(s[i]) == LowerHex(t[i])
    ensures HexDecode(s) == HexDecode(t)
  {
    hide LowerHex, HexValue;
    if |s| >= 2 {
      HexCase(s[2..], t[2..]);
      HexValueCase(s[0], t[0]);
      HexValueCase(s[1], t[1]);
    }
  }

  // ---- White space: strings.TrimSpace and strings.IndexByte ----

  /** unicode.IsSpace. */
  predicate IsSpace(c: char) {
    || '\t' <= c <= '\r' || c == ' ' || c == '\U{85}' || c == '\U{A0}' || c == '\U{1680}'
    || '\U{2000}' <= c <= '\U{200A}' || c == '\U{2028}' || c == '\U{2029}' || c == '\U{202F}'
    || c == '\U{205F}' || c == '\U{3000}'
  }

  function TrimLeft(s: string): (r: string)
    ensures |r| <= |s|
    ensures |r| == |s| ==> r == s
    ensures forall c :: c in r ==> c in s
  {
    if s != "" && IsSpace(s[0]) then TrimLeft(s[1..]) else s
  }

  function TrimRight(s: string): (r: string)
    ensures |r| <= |s|
    ensures |r| == |s| ==> r == s
    ensures forall c :: c in r ==> c in s
  {
    if s != "" && IsSpace(s[|s| - 1]) then TrimRight(s[..|s| - 1]) else s
  }

  function TrimSpace(s: string): (r: string)
    ensures |r| <= |s|
    ensures |r| == |s| ==> r == s
    ensures forall c :: c in r ==> c in s
  {
    TrimRight(TrimLeft(s))
  }

  /** Trimming never removes a character that is not white space. */
  lemma {:induction false} TrimLeftKeeps(s: string, c: char)
    requires c in s && !IsSpace(c)
    ensures c in TrimLeft(s)
  {
    if IsSpace(s[0]) {
      assert s == [s[0]] + s[1..];
      TrimLeftKeeps(s[1..], c);
    }
  }

  lemma {:induction false} TrimRightKeeps(s: string, c: char)
    requires c in s && !IsSpace(c)
    ensures c in TrimRight(s)
  {
    var n := |s| - 1;
    if IsSpace(s[n]) {
      assert s == s[..n] + [s[n]];
      TrimRightKeeps(s[..n], c);
    }
  }

  lemma TrimKeeps(s: string, c: char)
    requires !IsSpace(c)
    ensures c in TrimSpace(s) <==> c in s
  {
    if c in s {
      TrimLeftKeeps(s, c);
      TrimRightKeeps(TrimLeft(s), c);
    }
  }

  /** Unicode white space, by code point. */
  predicate White(c: char) {
    var n := c as int;
    || 9 <= n <= 13 || n == 32 || n == 0x85 || n == 0xA0 || n == 0x1680 || 0x2000 <= n <= 0x200A
    || n == 0x2028 || n == 0x2029 || n == 0x202F || n == 0x205F || n == 0x3000
  }

  lemma {:induction false} TrimLeftPadding(pad: string, s: string)
    requires forall i :: 0 <= i < |pad| ==> White(pad[i])
    ensures TrimLeft(pad + s) == TrimLeft(s)
  {
    if pad == "" {
      assert pad + s == s;
    } else {
      assert (pad + s)[1..] == pad[1..] + s;
      TrimLeftPadding(pad[1..], s);
    }
  }

  lemma {:induction false} TrimRightPadding(s: string, pad: string)
    requires forall i :: 0 <= i < |pad| ==> White(pad[i])
    ensures TrimRight(s + pad) == TrimRight(s)
  {
    if pad == "" {
      assert s + pad == s;
    } else {
      assert (s + pad)[..|s + pad| - 1] == s + pad[..|pad| - 1];
      TrimRightPadding(s, pad[..|pad| - 1]);
    }
  }

  /** Trimming takes all white space from both ends, and nothing else. */
  lemma TrimMeans(pad: string, s: string, pad': string)
    requires forall i :: 0 <= i < |pad| ==> White(pad[i])
    requires forall i :: 0 <= i < |pad'| ==> White(pad'[i])
    requires s != "" ==> !White(s[0]) && !White(s[|s| - 1])
    ensures TrimSpace(pad + s + pad') == s
  {
    if s == "" {
      assert pad + s + pad' == pad + pad' && pad + pad' + "" == pad + pad';
      TrimLeftPadding(pad + pad', "");
    } else {
      assert pad + s + pad' == pad + (s + pad');
      TrimLeftPadding(pad, s + pad');
      assert TrimLeft(s + pad') == s + pad';
      TrimRightPadding(s, pad');
    }
  }

  lemma TrimIdentity(s: string)
    requires s != "" && !IsSpace(s[0]) && !IsSpace(s[|s| - 1])
    ensures TrimSpace(s) == s
  {
  }

  function IndexOf(s: string, c: char): (i: nat)
    requires c in s
    ensures i < |s| && s[i] == c && forall j :: 0 <= j < i ==> s[j] != c
  {
    if s[0] == c then 0 else 1 + IndexOf(s[1..], c)
  }
}
