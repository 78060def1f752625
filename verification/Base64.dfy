/** Base64 as Go's encoding/base64 decodes and encodes it, in the url-safe and the
    standard alphabet, with padding (sections 4 and 5 of RFC 4648). */
module Base64 {
  import opened Bits
  import opened GoText

  datatype Alphabet = Url | Std

  function EncodeChar(v: nat, a: Alphabet): char
    requires v < 64
  {
    if v < 26 then 'A' + v as char
    else if v < 52 then 'a' + (v - 26) as char
    else if v < 62 then '0' + (v - 52) as char
    else if v == 62 then (if a.Url? then '-' else '+')
    else (if a.Url? then '_' else '/')
  }

  function DecodeChar(c: char, a: Alphabet): (r: Option<nat>)
    ensures r.Some? ==> r.value < 64
  {
    if 'A' <= c <= 'Z' then Some((c - 'A') as nat)
    else if 'a' <= c <= 'z' then Some((c - 'a') as nat + 26)
    else if '0' <= c <= '9' then Some((c - '0') as nat + 52)
    else if c == (if a.Url? then '-' else '+') then Some(62)
    else if c == (if a.Url? then '_' else '/') then Some(63)
    else None
  }

  /** The 24 bits of three bytes, cut into four six-bit values. */
  function Sextets(b: seq<Byte>): (v: seq<nat>)
    requires |b| == 3
    ensures |v| == 4 && v[0] < 64 && v[1] < 64 && v[2] < 64 && v[3] < 64
  {
    var m := ByteBits3(b);
    [SextetOf(m[..6]), SextetOf(m[6..12]), SextetOf(m[12..18]), SextetOf(m[18..])]
  }

  /** The 24 bits of four six-bit values, cut into three bytes. */
  function Octets(v0: nat, v1: nat, v2: nat, v3: nat): (b: seq<Byte>)
    ensures |b| == 3
  {
    var m := SextetBits4(v0, v1, v2, v3);
    [ByteOf(m[..8]), ByteOf(m[8..16]), ByteOf(m[16..])]
  }

  function ByteBits3(b: seq<Byte>): (m: seq<bool>)
    requires |b| == 3
    ensures |m| == 24
  {
    ToBits(b[0], 8) + ToBits(b[1], 8) + ToBits(b[2], 8)
  }

  function SextetBits4(v0: nat, v1: nat, v2: nat, v3: nat): (m: seq<bool>)
    ensures |m| == 24
  {
    ToBits(v0, 6) + ToBits(v1, 6) + ToBits(v2, 6) + ToBits(v3, 6)
  }

  function SextetOf(m: seq<bool>): (v: nat)
    requires |m| == 6
    ensures v < 64 && ToBits(v, 6) == m
  {
    SmallPowers();
    FromBitsInverse(m);
    FromBits(m)
  }

  function EncodeGroup(b: seq<Byte>, a: Alphabet): (s: string)
    requires |b| == 3
    ensures |s| == 4
  {
    var v := Sextets(b);
    [EncodeChar(v[0], a), EncodeChar(v[1], a), EncodeChar(v[2], a), EncodeChar(v[3], a)]
  }

  /** The encoder on whole groups; an address is always thirty-six bytes. */
  function Encode(data: seq<Byte>, a: Alphabet): (s: string)
    requires |data| % 3 == 0
    ensures |s| == |data| / 3 * 4
  {
    if data == [] then "" else EncodeGroup(data[..3], a) + Encode(data[3..], a)
  }

  /** Line breaks are skipped wherever they stand. */
  function Clean(s: string): (r: string)
    ensures |r| <= |s|
    ensures |r| == |s| ==> r == s
  {
    if s == "" then ""
    else if s[0] == '\r' || s[0] == '\n' then Clean(s[1..])
    else [s[0]] + Clean(s[1..])
  }

  /** Four characters as three bytes, or fewer when the group is padded; spare bits
      under the padding are ignored. */
  function DecodeGroup(s: string, a: Alphabet): (r: Option<seq<Byte>>)
    requires |s| == 4
    ensures r.Some? ==> 1 <= |r.value| <= 3
  {
    var d0, d1, d2, d3 := DecodeChar(s[0], a), DecodeChar(s[1], a), DecodeChar(s[2], a), DecodeChar(s[3], a);
    if d0.None? || d1.None? then None
    else if s[2] == '=' && s[3] == '=' then Some(Octets(d0.value, d1.value, 0, 0)[..1])
    else if d2.None? then None
    else if s[3] == '=' then Some(Octets(d0.value, d1.value, d2.value, 0)[..2])
    else if d3.None? then None
    else Some(Octets(d0.value, d1.value, d2.value, d3.value))
  }

  /** Groups of four, of which only the last may be padded. */
  function DecodeClean(s: string, a: Alphabet): Option<seq<Byte>> {
    if s == "" then Some([])
    else if |s| < 4 then None
    else
      var g := DecodeGroup(s[..4], a);
      if g.None? then None
      else if |g.value| < 3 then (if |s| == 4 then g else None)
      else
        var rest := DecodeClean(s[4..], a);
        if rest.None? then None else Some(g.value + rest.value)
  }

  function Decode(s: string, a: Alphabet): Option<seq<Byte>> {
    DecodeClean(Clean(s), a)
  }

  // ---- Decoding undoes encoding ----

  /** A character that is neither skipped, padding, a colon nor white space. */
  predicate Plain(c: char) {
    c != '=' && c != '\r' && c != '\n' && c != ':' && c != '\0' && !IsSpace(c)
  }

  lemma {:induction false} CharRoundTrip(v: nat, a: Alphabet)
    requires v < 64
    ensures DecodeChar(EncodeChar(v, a), a) == Some(v)
    ensures Plain(EncodeChar(v, a))
  {
  }

  lemma {:induction false} GroupRoundTrip(b: seq<Byte>, a: Alphabet)
    requires |b| == 3
    ensures DecodeGroup(EncodeGroup(b, a), a) == Some(b)
    ensures forall i :: 0 <= i < 4 ==> Plain(EncodeGroup(b, a)[i])
  {
    var v := Sextets(b);
    CharRoundTrip(v[0], a);
    CharRoundTrip(v[1], a);
    CharRoundTrip(v[2], a);
    CharRoundTrip(v[3], a);
    OctetsOfSextets(b);
  }

  lemma Quarters(m: seq<bool>)
    requires |m| == 24
    ensures m[..6] + m[6..12] + m[12..18] + m[18..] == m
  {
  }

  /** The sextets of three bytes hold their bits. */
  lemma SextetsBits(b: seq<Byte>)
    requires |b| == 3
    ensures var v := Sextets(b); SextetBits4(v[0], v[1], v[2], v[3]) == ByteBits3(b)
  {
    hide ToBits, SextetOf, ByteBits3;
    Quarters(ByteBits3(b));
  }

  lemma Thirds(x: seq<bool>, y: seq<bool>, z: seq<bool>)
    requires |x| == |y| == |z| == 8
    ensures (x + y + z)[..8] == x && (x + y + z)[8..16] == y && (x + y + z)[16..] == z
  {
  }

  lemma Cuts(b: seq<Byte>)
    requires |b| == 3
    ensures var m := ByteBits3(b); m[..8] == ToBits(b[0], 8) && m[8..16] == ToBits(b[1], 8) && m[16..] == ToBits(b[2], 8)
  {
    hide ToBits;
    Thirds(ToBits(b[0], 8), ToBits(b[1], 8), ToBits(b[2], 8));
  }

  lemma OctetsOfSextets(b: seq<Byte>)
    requires |b| == 3
    ensures var v := Sextets(b); Octets(v[0], v[1], v[2], v[3]) == b
  {
    hide ToBits, SextetOf, ByteOf, ByteBits3, SextetBits4;
    var m, v := ByteBits3(b), Sextets(b);
    SextetsBits(b);
    Cuts(b);
    ByteOfBits(b[0]);
    ByteOfBits(b[1]);
    ByteOfBits(b[2]);
  }

  lemma {:induction false} CleanRoundTrip(data: seq<Byte>, a: Alphabet)
    requires |data| % 3 == 0
    ensures DecodeClean(Encode(data, a), a) == Some(data)
    ensures forall i :: 0 <= i < |Encode(data, a)| ==> Plain(Encode(data, a)[i])
  {
    hide EncodeGroup, DecodeGroup, Plain;
    if data != [] {
      var s, g, rest := Encode(data, a), EncodeGroup(data[..3], a), Encode(data[3..], a);
      GroupRoundTrip(data[..3], a);
      CleanRoundTrip(data[3..], a);
      assert s[..4] == g && s[4..] == rest;
      assert data == data[..3] + data[3..];
    }
  }

  lemma {:induction false} CleanPlain(s: string)
    requires forall i :: 0 <= i < |s| ==> Plain(s[i])
    ensures Clean(s) == s
  {
    if s != "" {
      CleanPlain(s[1..]);
    }
  }

  lemma {:induction false} RoundTrip(data: seq<Byte>, a: Alphabet)
    requires |data| % 3 == 0
    ensures Decode(Encode(data, a), a) == Some(data)
    ensures forall i :: 0 <= i < |Encode(data, a)| ==> Plain(Encode(data, a)[i])
  {
    CleanRoundTrip(data, a);
    CleanPlain(Encode(data, a));
  }

  // ---- The two alphabets agree wherever both accept ----

  lemma {:induction false} GroupsAgree(s: string)
    requires |s| == 4 && DecodeGroup(s, Url).Some? && DecodeGroup(s, Std).Some?
    ensures DecodeGroup(s, Url) == DecodeGroup(s, Std)
  {
    hide Octets;
  }

  lemma {:induction false} AlphabetsAgree(s: string)
    requires DecodeClean(s, Url).Some? && DecodeClean(s, Std).Some?
    ensures DecodeClean(s, Url) == DecodeClean(s, Std)
  {
    if s != "" {
      GroupsAgree(s[..4]);
      if |DecodeGroup(s[..4], Url).value| == 3 {
        AlphabetsAgree(s[4..]);
      }
    }
  }

  // ---- The bits of a decoded string are the bits of its characters ----

  /** The six-bit value of a character of either alphabet. */
  function CharValue(c: char): (v: nat)
    ensures v < 64
  {
    var u, t := DecodeChar(c, Url), DecodeChar(c, Std);
    if u.Some? then u.value else if t.Some? then t.value else 0
  }

  /** Six bits for each character. */
  function CharBits(s: string): (r: seq<bool>)
    ensures |r| == 6 * |s|
  {
    seq(6 * |s|, i requires 0 <= i < 6 * |s| => CharBit(s, i))
  }

  function CharBit(s: string, i: nat): bool
    requires i < 6 * |s|
  {
    ToBits(CharValue(s[i / 6]), 6)[i % 6]
  }

  lemma ShiftBySixes(n: nat, j: nat)
    ensures (6 * n + j) / 6 == n + j / 6 && (6 * n + j) % 6 == j % 6
  {
  }

  lemma {:induction false} CharBitRight(s: string, t: string, j: nat)
    requires j < 6 * |t|
    ensures CharBit(s + t, 6 * |s| + j) == CharBit(t, j)
  {
    hide ToBits, CharValue;
    ShiftBySixes(|s|, j);
    assert (s + t)[|s| + j / 6] == t[j / 6];
  }

  lemma CharBitLeft(s: string, t: string, i: nat)
    requires i < 6 * |s|
    ensures CharBit(s + t, i) == CharBit(s, i)
  {
    hide ToBits, CharValue;
  }

  lemma {:induction false} CharBitsConcat(s: string, t: string)
    ensures CharBits(s + t) == CharBits(s) + CharBits(t)
  {
    hide CharBit;
    var l, r := CharBits(s + t), CharBits(s) + CharBits(t);
    forall i | 0 <= i < |l| ensures l[i] == r[i] {
      if i < 6 * |s| {
        CharBitLeft(s, t, i);
      } else {
        CharBitRight(s, t, i - 6 * |s|);
      }
    }
  }

  lemma {:induction false} BytesToBits3(x: Byte, y: Byte, z: Byte)
    ensures BytesToBits([x, y, z]) == ToBits(x, 8) + ToBits(y, 8) + ToBits(z, 8)
  {
    BytesToBitsAppend([], x);
    BytesToBitsAppend([x], y);
    BytesToBitsAppend([x, y], z);
    assert [x, y, z] == [x, y] + [z];
  }

  lemma {:induction false} CharBits1(c: char)
    ensures CharBits([c]) == ToBits(CharValue(c), 6)
  {
  }

  lemma {:induction false} CharBits4(s: string)
    requires |s| == 4
    ensures CharBits(s) == SextetBits4(CharValue(s[0]), CharValue(s[1]), CharValue(s[2]), CharValue(s[3]))
  {
    CharBits1(s[0]);
    CharBits1(s[1]);
    CharBits1(s[2]);
    CharBits1(s[3]);
    CharBitsConcat([s[0]], [s[1]]);
    CharBitsConcat([s[0]] + [s[1]], [s[2]]);
    CharBitsConcat([s[0]] + [s[1]] + [s[2]], [s[3]]);
    assert s == [s[0]] + [s[1]] + [s[2]] + [s[3]];
  }

  lemma {:induction false} WholeGroupValues(s: string, a: Alphabet)
    requires |s| == 4 && DecodeGroup(s, a).Some? && |DecodeGroup(s, a).value| == 3
    ensures forall i :: 0 <= i < 4 ==> DecodeChar(s[i], a) == Some(CharValue(s[i]))
    ensures DecodeGroup(s, a).value == Octets(CharValue(s[0]), CharValue(s[1]), CharValue(s[2]), CharValue(s[3]))
  {
    hide Octets, DecodeChar, CharValue;
    Unpadded(s, a);
    forall i | 0 <= i < 4 ensures DecodeChar(s[i], a) == Some(CharValue(s[i])) {
      DecodedValue(s[i], a);
    }
  }

  /** A group of three bytes came from four alphabet characters. */
  lemma Unpadded(s: string, a: Alphabet)
    requires |s| == 4 && DecodeGroup(s, a).Some? && |DecodeGroup(s, a).value| == 3
    ensures forall i :: 0 <= i < 4 ==> DecodeChar(s[i], a).Some?
    ensures DecodeGroup(s, a).value
      == Octets(DecodeChar(s[0], a).value, DecodeChar(s[1], a).value, DecodeChar(s[2], a).value, DecodeChar(s[3], a).value)
  {
    hide Octets, DecodeChar;
  }

  lemma DecodedValue(c: char, a: Alphabet)
    requires DecodeChar(c, a).Some?
    ensures DecodeChar(c, a) == Some(CharValue(c))
  {
  }

  lemma {:induction false} OctetBits(v0: nat, v1: nat, v2: nat, v3: nat)
    ensures BytesToBits(Octets(v0, v1, v2, v3)) == SextetBits4(v0, v1, v2, v3)
  {
    hide SextetBits4, BytesToBits, ToBits;
    var m := SextetBits4(v0, v1, v2, v3);
    BytesToBits3(ByteOf(m[..8]), ByteOf(m[8..16]), ByteOf(m[16..]));
    assert m == m[..8] + m[8..16] + m[16..];
  }

  lemma {:induction false} WholeGroup(s: string, a: Alphabet)
    requires |s| == 4 && DecodeGroup(s, a).Some? && |DecodeGroup(s, a).value| == 3
    ensures forall i :: 0 <= i < 4 ==> DecodeChar(s[i], a) == Some(CharValue(s[i]))
    ensures BytesToBits(DecodeGroup(s, a).value) == CharBits(s)
  {
    WholeGroupValues(s, a);
    OctetBits(CharValue(s[0]), CharValue(s[1]), CharValue(s[2]), CharValue(s[3]));
    CharBits4(s);
  }

  lemma FirstGroup(s: string, a: Alphabet, data: seq<Byte>) returns (g: seq<Byte>, rest: seq<Byte>)
    requires DecodeClean(s, a) == Some(data) && |data| % 3 == 0 && s != ""
    ensures |s| >= 4 && DecodeGroup(s[..4], a) == Some(g) && |g| == 3
    ensures DecodeClean(s[4..], a) == Some(rest) && data == g + rest
  {
    g := DecodeGroup(s[..4], a).value;
    rest := DecodeClean(s[4..], a).value;
  }

  /** A string decoded to whole groups has only alphabet characters, four for
      every three bytes. */
  lemma {:induction false} WholeLength(s: string, a: Alphabet, data: seq<Byte>)
    requires DecodeClean(s, a) == Some(data) && |data| % 3 == 0
    ensures 3 * |s| == 4 * |data|
    ensures forall i :: 0 <= i < |s| ==> DecodeChar(s[i], a).Some?
  {
    hide Octets;
    if s != "" {
      var g, rest := FirstGroup(s, a, data);
      var h, t := s[..4], s[4..];
      WholeGroupValues(h, a);
      WholeLength(t, a, rest);
      assert forall i :: 0 <= i < |s| ==> s[i] == if i < 4 then h[i] else t[i - 4];
    }
  }

  /** Group by group, the characters' bits are the bytes' bits. */
  ghost predicate SameBits(s: string, data: seq<Byte>) {
    if s == "" then data == []
    else
      && |s| >= 4 && |data| >= 3
      && BytesToBits(data[..3]) == CharBits(s[..4])
      && SameBits(s[4..], data[3..])
  }

  lemma FirstGroupSlices(s: string, a: Alphabet, data: seq<Byte>)
    requires DecodeClean(s, a) == Some(data) && |data| % 3 == 0 && s != ""
    ensures |s| >= 4 && |data| >= 3
    ensures DecodeGroup(s[..4], a) == Some(data[..3]) && DecodeClean(s[4..], a) == Some(data[3..])
  {
    var g, rest := FirstGroup(s, a, data);
    assert data[..3] == g && data[3..] == rest;
  }

  lemma {:induction false} WholeSameBits(s: string, a: Alphabet, data: seq<Byte>)
    requires DecodeClean(s, a) == Some(data) && |data| % 3 == 0
    ensures SameBits(s, data)
  {
    hide Octets, Sextets, BytesToBits, CharBits;
    if s != "" {
      FirstGroupSlices(s, a, data);
      WholeGroup(s[..4], a);
      WholeSameBits(s[4..], a, data[3..]);
    }
  }

  lemma {:induction false} JoinBits(s: string, data: seq<Byte>)
    requires SameBits(s, data)
    ensures BytesToBits(data) == CharBits(s)
  {
    if s == "" {
      assert CharBits(s) == [];
    } else {
      JoinBits(s[4..], data[3..]);
      BytesToBitsConcat(data[..3], data[3..]);
      CharBitsConcat(s[..4], s[4..]);
      assert s == s[..4] + s[4..] && data == data[..3] + data[3..];
    }
  }

  /** ... and its bits are the bytes' bits. */
  lemma WholeBits(s: string, a: Alphabet, data: seq<Byte>)
    requires DecodeClean(s, a) == Some(data) && |data| % 3 == 0
    ensures BytesToBits(data) == CharBits(s)
  {
    WholeSameBits(s, a, data);
    JoinBits(s, data);
  }

  // ---- The alphabets and the groups, by table and by place ----

  /** Tables 1 and 2 of RFC 4648. */
  function Table(a: Alphabet): (s: string)
    ensures |s| == 64
  {
    "ABCDEFGHIJKLMNOPQRSTUVWXYZ" + "abcdefghijklmnopqrstuvwxyz" + "0123456789" + if a.Url? then "-_" else "+/"
  }

  lemma UpperTable(v: nat)
    requires v < 26
    ensures "ABCDEFGHIJKLMNOPQRSTUVWXYZ"[v] == 'A' + v as char
  {
  }

  lemma LowerTable(v: nat)
    requires v < 26
    ensures "abcdefghijklmnopqrstuvwxyz"[v] == 'a' + v as char
  {
  }

  lemma DigitTable(v: nat)
    requires v < 10
    ensures "0123456789"[v] == '0' + v as char
  {
  }

  lemma EncodeCharTable(v: nat, a: Alphabet)
    requires v < 64
    ensures EncodeChar(v, a) == Table(a)[v]
  {
    if v < 26 {
      UpperTable(v);
    } else if v < 52 {
      LowerTable(v - 26);
    } else if v < 62 {
      DigitTable(v - 52);
    }
  }

  /** A character decodes exactly to its place in the table. */
  lemma DecodeCharTable(c: char, a: Alphabet, v: nat)
    requires v < 64
    ensures DecodeChar(c, a) == Some(v) <==> Table(a)[v] == c
  {
    EncodeCharTable(v, a);
    hide Table;
  }

  /** Bits of two numbers side by side. */
  lemma {:induction false} ToBitsJoin(x: nat, y: nat, j: nat, k: nat)
    requires y < Pow2(k)
    ensures ToBits(x * Pow2(k) + y, j + k) == ToBits(x, j) + ToBits(y, k)
  {
    if k > 0 {
      ToBitsJoin(x, y / 2, j, k - 1);
      Halves(x, y, Pow2(k - 1));
      hide Pow2;
      Associative(ToBits(x, j), ToBits(y / 2, k - 1), [y % 2 == 1]);
    }
  }

  lemma Halves(x: nat, y: nat, p: nat)
    ensures (x * (2 * p) + y) / 2 == x * p + y / 2 && (x * (2 * p) + y) % 2 == y % 2
  {
    assert x * (2 * p) == 2 * (x * p);
  }

  lemma SextetOfBits(v: nat, m: seq<bool>)
    requires v < 64 && |m| == 6 && m == ToBits(v, 6)
    ensures SextetOf(m) == v
  {
    SmallPowers();
    ToBitsInjective(SextetOf(m), v, 6);
  }

  lemma Slices(p: seq<bool>, q: seq<bool>, r: seq<bool>, s: seq<bool>, t: seq<bool>, u: seq<bool>)
    requires |p| == 6 && |q| == 2 && |r| == 4 && |s| == 4 && |t| == 2 && |u| == 6
    ensures var m := (p + q) + (r + s) + (t + u); m[..6] == p && m[6..12] == q + r && m[12..18] == s + t && m[18..] == u
  {
  }

  lemma ByteCuts(x: Byte)
    ensures ToBits(x, 8) == ToBits(x / 4, 6) + ToBits(x % 4, 2)
    ensures ToBits(x, 8) == ToBits(x / 16, 4) + ToBits(x % 16, 4)
    ensures ToBits(x, 8) == ToBits(x / 64, 2) + ToBits(x % 64, 6)
  {
    hide ToBits;
    SmallPowers();
    ToBitsJoin(x / 4, x % 4, 6, 2);
    ToBitsJoin(x / 16, x % 16, 4, 4);
    ToBitsJoin(x / 64, x % 64, 2, 6);
  }

  lemma SextetJoins(x: Byte, y: Byte)
    ensures ToBits(x % 4, 2) + ToBits(y / 16, 4) == ToBits(x % 4 * 16 + y / 16, 6)
    ensures ToBits(x % 16, 4) + ToBits(y / 64, 2) == ToBits(x % 16 * 4 + y / 64, 6)
  {
    hide ToBits;
    SmallPowers();
    ToBitsJoin(x % 4, y / 16, 2, 4);
    ToBitsJoin(x % 16, y / 64, 4, 2);
  }

  /** The six-bit values of three bytes, by arithmetic. */
  lemma SextetsMean(b: seq<Byte>)
    requires |b| == 3
    ensures Sextets(b) == [b[0] / 4, b[0] % 4 * 16 + b[1] / 16, b[1] % 16 * 4 + b[2] / 64, b[2] % 64]
  {
    hide ToBits, SextetOf;
    var x, y, z := b[0], b[1], b[2];
    ByteCuts(x);
    ByteCuts(y);
    ByteCuts(z);
    SextetJoins(x, y);
    SextetJoins(y, z);
    Slices(ToBits(x / 4, 6), ToBits(x % 4, 2), ToBits(y / 16, 4), ToBits(y % 16, 4), ToBits(z / 64, 2), ToBits(z % 64, 6));
    var m := ByteBits3(b);
    SextetOfBits(x / 4, m[..6]);
    SextetOfBits(x % 4 * 16 + y / 16, m[6..12]);
    SextetOfBits(y % 16 * 4 + z / 64, m[12..18]);
    SextetOfBits(z % 64, m[18..]);
  }

  /** A text spells bytes: four table characters for every three bytes, by the places
      that section 4 of RFC 4648 gives their bits. */
  ghost predicate Spells(s: string, data: seq<Byte>, a: Alphabet) {
    && 3 * |s| == 4 * |data|
    && forall k :: 0 <= 3 * k && 3 * k + 2 < |data| ==> SpellsGroup(s, data, a, k)
  }

  ghost predicate SpellsGroup(s: string, data: seq<Byte>, a: Alphabet, k: int)
    requires 0 <= 3 * k && 3 * k + 2 < |data| && 3 * |s| == 4 * |data|
  {
    var x, y, z, t := data[3 * k], data[3 * k + 1], data[3 * k + 2], Table(a);
    && s[4 * k] == t[x / 4]
    && s[4 * k + 1] == t[x % 4 * 16 + y / 16]
    && s[4 * k + 2] == t[y % 16 * 4 + z / 64]
    && s[4 * k + 3] == t[z % 64]
  }

  lemma EncodeGroupMeans(b: seq<Byte>, a: Alphabet)
    requires |b| == 3
    ensures SpellsGroup(EncodeGroup(b, a), b, a, 0)
  {
    hide Sextets, EncodeChar, Table;
    SextetsMean(b);
    EncodeCharTable(b[0] / 4, a);
    EncodeCharTable(b[0] % 4 * 16 + b[1] / 16, a);
    EncodeCharTable(b[1] % 16 * 4 + b[2] / 64, a);
    EncodeCharTable(b[2] % 64, a);
  }

  /** The encoder spells. */
  lemma {:induction false} EncodeMeans(data: seq<Byte>, a: Alphabet)
    requires |data| % 3 == 0
    ensures Spells(Encode(data, a), data, a)
  {
    hide EncodeGroup, Table;
    if data != [] {
      var d, s, h, t := data[3..], Encode(data, a), EncodeGroup(data[..3], a), Encode(data[3..], a);
      EncodeMeans(d, a);
      EncodeGroupMeans(data[..3], a);
      forall k | 0 <= 3 * k && 3 * k + 2 < |data| ensures SpellsGroup(s, data, a, k) {
        if k > 0 {
          SpellsShift(s, data, a, k);
        }
      }
    }
  }

  /** ... and nothing else spells the same bytes. */
  lemma EncodeOnly(s: string, data: seq<Byte>, a: Alphabet)
    requires |data| % 3 == 0
    ensures Spells(s, data, a) <==> s == Encode(data, a)
  {
    hide Encode, Table, SpellsGroup;
    EncodeMeans(data, a);
    var t := Encode(data, a);
    if Spells(s, data, a) {
      forall i | 0 <= i < |s| ensures s[i] == t[i] {
        var k := i / 4;
        assert SpellsGroup(s, data, a, k) && SpellsGroup(t, data, a, k);
        SameGroup(s, t, data, a, k);
        assert i == 4 * k || i == 4 * k + 1 || i == 4 * k + 2 || i == 4 * k + 3;
      }
    }
  }

  lemma SameGroup(s: string, t: string, data: seq<Byte>, a: Alphabet, k: int)
    requires 0 <= 3 * k && 3 * k + 2 < |data| && 3 * |s| == 4 * |data| == 3 * |t|
    requires SpellsGroup(s, data, a, k) && SpellsGroup(t, data, a, k)
    ensures s[4 * k] == t[4 * k] && s[4 * k + 1] == t[4 * k + 1]
    ensures s[4 * k + 2] == t[4 * k + 2] && s[4 * k + 3] == t[4 * k + 3]
  {
    hide Table;
  }

  lemma SpellsShift(s: string, data: seq<Byte>, a: Alphabet, k: int)
    requires 3 <= 3 * k && 3 * k + 2 < |data| && 3 * |s| == 4 * |data|
    requires SpellsGroup(s[4..], data[3..], a, k - 1)
    ensures SpellsGroup(s, data, a, k)
  {
    hide Table;
    var t, d := s[4..], data[3..];
    assert d[3 * (k - 1)] == data[3 * k] && d[3 * (k - 1) + 1] == data[3 * k + 1] && d[3 * (k - 1) + 2] == data[3 * k + 2];
    assert t[4 * (k - 1)] == s[4 * k] && t[4 * (k - 1) + 1] == s[4 * k + 1];
    assert t[4 * (k - 1) + 2] == s[4 * k + 2] && t[4 * (k - 1) + 3] == s[4 * k + 3];
  }

  // ---- Encoding undoes decoding ----

  lemma OctetsCuts(v0: nat, v1: nat, v2: nat, v3: nat)
    requires v0 < 64 && v1 < 64 && v2 < 64 && v3 < 64
    ensures Sextets(Octets(v0, v1, v2, v3)) == [v0, v1, v2, v3]
  {
    hide ToBits, ByteOf, SextetOf;
    var m, b := SextetBits4(v0, v1, v2, v3), Octets(v0, v1, v2, v3);
    assert m[..8] + m[8..16] + m[16..] == m;
    assert ByteBits3(b) == m;
    SextetSlices(ToBits(v0, 6), ToBits(v1, 6), ToBits(v2, 6), ToBits(v3, 6));
    SextetOfBits(v0, m[..6]);
    SextetOfBits(v1, m[6..12]);
    SextetOfBits(v2, m[12..18]);
    SextetOfBits(v3, m[18..]);
  }

  lemma SextetSlices(p: seq<bool>, q: seq<bool>, r: seq<bool>, s: seq<bool>)
    requires |p| == |q| == |r| == |s| == 6
    ensures var m := p + q + r + s; m[..6] == p && m[6..12] == q && m[12..18] == r && m[18..] == s
  {
  }

  lemma CharInverse(c: char, a: Alphabet)
    requires DecodeChar(c, a).Some?
    ensures EncodeChar(DecodeChar(c, a).value, a) == c
  {
  }

  lemma GroupInverse(s: string, a: Alphabet)
    requires |s| == 4 && DecodeGroup(s, a).Some? && |DecodeGroup(s, a).value| == 3
    ensures EncodeGroup(DecodeGroup(s, a).value, a) == s
  {
    hide Octets, DecodeChar, EncodeChar, Sextets, DecodeGroup;
    Unpadded(s, a);
    OctetsCuts(DecodeChar(s[0], a).value, DecodeChar(s[1], a).value, DecodeChar(s[2], a).value, DecodeChar(s[3], a).value);
    CharInverse(s[0], a);
    CharInverse(s[1], a);
    CharInverse(s[2], a);
    CharInverse(s[3], a);
  }

  /** A text is decoded to whole groups exactly if it is their encoding. */
  lemma {:induction false} DecodeIff(s: string, a: Alphabet, data: seq<Byte>)
    requires |data| % 3 == 0
    ensures DecodeClean(s, a) == Some(data) <==> s == Encode(data, a)
  {
    if s == Encode(data, a) {
      CleanRoundTrip(data, a);
    } else if DecodeClean(s, a) == Some(data) {
      DecodedOnly(s, a, data);
    }
  }

  lemma {:induction false} DecodedOnly(s: string, a: Alphabet, data: seq<Byte>)
    requires |data| % 3 == 0 && DecodeClean(s, a) == Some(data)
    ensures s == Encode(data, a)
  {
    hide EncodeGroup, DecodeGroup, DecodeClean;
    if s == "" {
      assert DecodeClean(s, a) == Some([]) by { EmptyDecodes(a); }
    } else {
      FirstGroupSlices(s, a, data);
      GroupInverse(s[..4], a);
      DecodedOnly(s[4..], a, data[3..]);
      assert s == s[..4] + s[4..];
    }
  }

  lemma EmptyDecodes(a: Alphabet)
    ensures DecodeClean("", a) == Some([])
  {
  }

  /** A line break makes no difference wherever it stands. */
  lemma LineBreak(s: string, c: char, t: string, a: Alphabet)
    requires c == '\r' || c == '\n'
    ensures Clean(s + [c] + t) == Clean(s + t)
    ensures Decode(s + [c] + t, a) == Decode(s + t, a)
  {
    hide DecodeClean;
    Associative(s, [c], t);
    CleanConcat(s, [c] + t);
    CleanConcat(s, t);
    assert ([c] + t)[1..] == t;
  }

  lemma Kept(c: char, t: string)
    requires c != '\r' && c != '\n'
    ensures Clean([c] + t) == [c] + Clean(t)
  {
    assert ([c] + t)[1..] == t;
  }

  lemma {:induction false} CleanConcat(s: string, t: string)
    ensures Clean(s + t) == Clean(s) + Clean(t)
  {
    if s == "" {
      assert s + t == t;
    } else {
      CleanConcat(s[1..], t);
      assert (s + t)[1..] == s[1..] + t;
    }
  }

  /** Nothing else is skipped. */
  lemma NoLineBreak(s: string, c: char, t: string)
    requires c != '\r' && c != '\n'
    ensures Clean(s + [c] + t) == Clean(s) + [c] + Clean(t)
  {
    hide Clean;
    Associative(s, [c], t);
    CleanConcat(s, [c] + t);
    Kept(c, t);
  }

  predicate NoPlusSlash(s: string) {
    forall i :: 0 <= i < |s| ==> s[i] != '+' && s[i] != '/'
  }

  lemma UrlSafeGroup(b: seq<Byte>)
    requires |b| == 3 && NoPlusSlash(EncodeGroup(b, Std))
    ensures EncodeGroup(b, Std) == EncodeGroup(b, Url)
  {
    hide Sextets;
    var s, v := EncodeGroup(b, Std), Sextets(b);
    assert s[0] != '+' && s[0] != '/' && s[1] != '+' && s[1] != '/';
    assert s[2] != '+' && s[2] != '/' && s[3] != '+' && s[3] != '/';
  }

  lemma NoPlusSlashParts(s: string, t: string)
    requires NoPlusSlash(s + t)
    ensures NoPlusSlash(s) && NoPlusSlash(t)
  {
    assert forall i :: 0 <= i < |s| ==> s[i] == (s + t)[i];
    assert forall i :: 0 <= i < |t| ==> t[i] == (s + t)[|s| + i];
  }

  /** A spelling without plus and slash reads the same in the url-safe alphabet. */
  lemma {:induction false} UrlSafe(data: seq<Byte>)
    requires |data| % 3 == 0 && NoPlusSlash(Encode(data, Std))
    ensures Encode(data, Std) == Encode(data, Url)
  {
    hide EncodeGroup, NoPlusSlash;
    if data != [] {
      NoPlusSlashParts(EncodeGroup(data[..3], Std), Encode(data[3..], Std));
      UrlSafeGroup(data[..3]);
      UrlSafe(data[3..]);
    }
  }
}
