/** TON addresses: internal/tonaddr/tonaddr.go. */
module TonAddr {
  import opened Bits
  import opened GoText
  import opened Base64
  import opened Crc16
  import opened CrcDetection

  datatype Address = Address(workchain: int, hash: seq<Byte>, bounceable: bool, testnet: bool)
  {
    /** What the Go types guarantee: an int32 workchain and a 32-byte hash. */
    predicate Valid() {
      |hash| == 32 && -INT32_LIMIT <= workchain < INT32_LIMIT
    }

    /** The two workchains the service supports. */
    predicate Supported() {
      Valid() && (workchain == 0 || workchain == -1)
    }
  }

  const TAG_BOUNCEABLE: Byte := 0x11
  const TAG_NON_BOUNCEABLE: Byte := 0x51
  const TAG_TESTNET: Byte := 0x80

  // ---- Parsing ----

  function Parse(s: string): (r: Option<Address>)
    ensures r.Some? ==> r.value.Supported()
  {
    var t := TrimSpace(s);
    if t == "" then None
    else if ':' in t then
      var i := IndexOf(t, ':');
      ParseRaw(t[..i], t[i + 1..])
    else ParseFriendly(t)
  }

  function ParseRaw(workchain: string, hex: string): (r: Option<Address>)
    ensures r.Some? ==> r.value.Supported() && r.value.bounceable && !r.value.testnet
  {
    var wc := ParseInt(workchain, INT32_LIMIT);
    if wc.None? || (wc.value != 0 && wc.value != -1) || |hex| != 64 then None
    else
      var h := HexDecode(hex);
      if h.None? then None else Some(Address(wc.value, h.value, true, false))
  }

  /** The url-safe alphabet first, then the standard one. */
  function DecodeAny(s: string): Option<seq<Byte>> {
    var url := Decode(s, Url);
    if url.Some? then url else Decode(s, Std)
  }

  function ParseFriendly(s: string): (r: Option<Address>)
    ensures r.Some? ==> r.value.Supported()
  {
    var raw := DecodeAny(s);
    if raw.None? || |raw.value| != 36 then None else ParsePayload(raw.value)
  }

  predicate ChecksumMatches(raw: seq<Byte>)
    requires |raw| == 36
  {
    Checksum(raw[..34]) == BytesToBits(raw[34..])
  }

  function ParsePayload(raw: seq<Byte>): (r: Option<Address>)
    requires |raw| == 36
    ensures r.Some? ==> r.value.Supported()
  {
    var tag := raw[0] % TAG_TESTNET;
    if tag != TAG_BOUNCEABLE && tag != TAG_NON_BOUNCEABLE then None
    else if raw[1] != 0x00 && raw[1] != 0xFF then None
    else if !ChecksumMatches(raw) then None
    else Some(Address(if raw[1] == 0 then 0 else -1, raw[2..34], tag == TAG_BOUNCEABLE, raw[0] >= TAG_TESTNET))
  }

  // ---- Printing ----

  function Tag(bounceable: bool, testnet: bool): Byte {
    (if bounceable then TAG_BOUNCEABLE else TAG_NON_BOUNCEABLE) + if testnet then TAG_TESTNET else 0
  }

  function Body(a: Address, bounceable: bool): (r: seq<Byte>)
    requires a.Valid()
    ensures |r| == 34
  {
    [Tag(bounceable, a.testnet), if a.workchain == -1 then 0xFF else 0] + a.hash
  }

  /** The thirty-six bytes of the user-friendly form. */
  function Payload(a: Address, bounceable: bool): (r: seq<Byte>)
    requires a.Valid()
    ensures |r| == 36
  {
    var crc := Checksum(Body(a, bounceable));
    Body(a, bounceable) + [ByteOf(crc[..8]), ByteOf(crc[8..])]
  }

  /** The user-friendly form in either alphabet; the code prints the url-safe one. */
  function Spell(a: Address, bounceable: bool, alphabet: Alphabet): (s: string)
    requires a.Valid()
    ensures |s| == 48
  {
    Encode(Payload(a, bounceable), alphabet)
  }

  function Friendly(a: Address, bounceable: bool): (s: string)
    requires a.Valid()
    ensures |s| == 48
  {
    Spell(a, bounceable, Url)
  }

  function ToString(a: Address): string
    requires a.Valid()
  {
    Friendly(a, a.bounceable)
  }

  function Raw(a: Address): string
    requires a.Valid()
  {
    FormatInt(a.workchain) + ":" + HexEncode(a.hash)
  }

  function Normalize(s: string): Option<string> {
    var a := Parse(s);
    if a.None? then None else Some(ToString(a.value))
  }

  /** A colon anywhere in the input, trimmed or not, waives the network check. */
  function NormalizeOnNetwork(s: string, wantTestnet: bool): Option<string> {
    var a := Parse(s);
    if a.None? then None
    else if ':' !in s && a.value.testnet != wantTestnet then None
    else Some(ToString(a.value))
  }

  /** The encoder: a buffer filled in place, checksummed, then spelled. */
  method PrintFriendly(a: Address, bounceable: bool) returns (s: string)
    requires a.Valid()
    ensures s == Friendly(a, bounceable)
  {
    hide Checksum, Encode, Body;
    var buf := FillBody(a, bounceable);
    ghost var body := Body(a, bounceable);
    var crc := ComputeCrc16(buf[..34]);
    buf[34] := ByteOf(crc[..8]);
    buf[35] := ByteOf(crc[8..]);
    assert buf[..] == body + [ByteOf(crc[..8]), ByteOf(crc[8..])];
    s := Encode(buf[..], Url);
  }

  method FillBody(a: Address, bounceable: bool) returns (buf: array<Byte>)
    requires a.Valid()
    ensures fresh(buf) && buf.Length == 36 && buf[..34] == Body(a, bounceable)
  {
    buf := new Byte[36](_ => 0);
    var tag: Byte := TAG_BOUNCEABLE;
    if !bounceable {
      tag := TAG_NON_BOUNCEABLE;
    }
    if a.testnet {
      tag := tag + TAG_TESTNET;
    }
    buf[0] := tag;
    if a.workchain == -1 {
      buf[1] := 0xFF;
    }
    forall i | 0 <= i < 32 {
      buf[2 + i] := a.hash[i];
    }
  }

  // ---- Round trips ----

  lemma PayloadRoundTrip(a: Address, bounceable: bool)
    requires a.Valid()
    ensures var b := if a.workchain == -1 then a else a.(workchain := 0);
      ParsePayload(Payload(a, bounceable)) == Some(b.(bounceable := bounceable))
  {
    hide Checksum, BytesToBits, ToBits;
    var p, body := Payload(a, bounceable), Body(a, bounceable);
    var crc := Checksum(body);
    assert p[..34] == body && p[2..34] == a.hash && p[0] == body[0] && p[1] == body[1];
    assert p[34..] == [ByteOf(crc[..8]), ByteOf(crc[8..])];
    TrailerBits(crc);
    assert ChecksumMatches(p);
  }

  lemma TrailerBits(crc: seq<bool>)
    requires |crc| == 16
    ensures BytesToBits([ByteOf(crc[..8]), ByteOf(crc[8..])]) == crc
  {
    var x, y := ByteOf(crc[..8]), ByteOf(crc[8..]);
    BytesToBitsAppend([], x);
    BytesToBitsAppend([x], y);
    assert [x, y] == [x] + [y];
  }

  /** A string of plain characters is parsed as it stands, as a friendly form. */
  lemma ParsePlain(s: string)
    requires s != "" && forall i :: 0 <= i < |s| ==> Plain(s[i])
    ensures TrimSpace(s) == s && ':' !in s && Parse(s) == ParseFriendly(s)
  {
    TrimIdentity(s);
  }

  /** The friendly form parses to the address printed exactly for the two
      supported workchains, in both alphabets. */
  lemma FriendlyRoundTrip(a: Address, bounceable: bool, alphabet: Alphabet)
    requires a.Valid()
    ensures var r := Parse(Spell(a, bounceable, alphabet));
      && r.Some?
      && r.value == (if a.workchain == -1 then a else a.(workchain := 0)).(bounceable := bounceable)
      && (r == Some(a.(bounceable := bounceable)) <==> a.Supported())
  {
    hide Checksum, BytesToBits, ToBits, Payload, ParsePayload, Encode, DecodeClean;
    var p := Payload(a, bounceable);
    RoundTrip(p, alphabet);
    ParsePlain(Spell(a, bounceable, alphabet));
    PayloadRoundTrip(a, bounceable);
    FallbackOrder(Spell(a, bounceable, alphabet));
  }

  /** Where both alphabets decode, they decode to the same bytes: the order in which
      they are tried never matters. */
  lemma FallbackOrder(s: string)
    ensures Decode(s, Url).Some? && Decode(s, Std).Some? ==> Decode(s, Url) == Decode(s, Std)
    ensures DecodeAny(s) == if Decode(s, Std).Some? then Decode(s, Std) else Decode(s, Url)
  {
    hide DecodeClean, Clean;
    if Decode(s, Url).Some? && Decode(s, Std).Some? {
      AlphabetsAgree(Clean(s));
    }
  }

  // ---- Normalisation ----

  /** Printing keeps the whole address: what is printed parses back to it. */
  lemma ParseToString(a: Address)
    requires a.Supported()
    ensures Parse(ToString(a)) == Some(a)
    ensures |ToString(a)| == 48 && ':' !in ToString(a) && '\0' !in ToString(a)
  {
    hide Payload, Encode, Parse;
    FriendlyRoundTrip(a, a.bounceable, Url);
    RoundTrip(Payload(a, a.bounceable), Url);
    assert forall i :: 0 <= i < 48 ==> Plain(ToString(a)[i]);
  }

  lemma NormalizeIdempotent(s: string)
    ensures Normalize(s).Some? ==>
      Normalize(Normalize(s).value) == Normalize(s) && Parse(Normalize(s).value) == Parse(s)
  {
    hide ToString, Parse;
    if Parse(s).Some? {
      ParseToString(Parse(s).value);
    }
  }

  /** Two inputs normalise to the same string iff every part of the address they
      name agrees. */
  lemma NormalizeEqual(s: string, t: string)
    ensures Normalize(s) == Normalize(t) <==> Parse(s) == Parse(t)
  {
    hide ToString, Parse;
    if Parse(s).Some? && Parse(t).Some? {
      ParseToString(Parse(s).value);
      ParseToString(Parse(t).value);
    }
  }

  /** Normalised addresses hold no NUL, so they can be joined to a memo by one. */
  lemma NormalizePlain(s: string)
    ensures var r := Normalize(s); r.Some? ==> |r.value| == 48 && '\0' !in r.value && ':' !in r.value
  {
    hide ToString, Parse;
    if Parse(s).Some? {
      ParseToString(Parse(s).value);
    }
  }

  lemma RawHasNoNetwork(s: string)
    requires ':' in s && Parse(s).Some?
    ensures !Parse(s).value.testnet
  {
    TrimKeeps(s, ':');
  }

  /** A friendly input is accepted only on its own network. */
  lemma NetworkChecked(s: string, wantTestnet: bool)
    requires ':' !in s && NormalizeOnNetwork(s, wantTestnet).Some?
    ensures Parse(NormalizeOnNetwork(s, wantTestnet).value).Some?
    ensures Parse(NormalizeOnNetwork(s, wantTestnet).value).value.testnet == wantTestnet
  {
    hide ToString, Parse;
    ParseToString(Parse(s).value);
  }

  /** Normalising on a network is idempotent except for raw inputs on a testnet
      service: those are printed with the mainnet tag and then refused. */
  lemma NetworkIdempotent(s: string, wantTestnet: bool)
    requires NormalizeOnNetwork(s, wantTestnet).Some?
    ensures var r := NormalizeOnNetwork(s, wantTestnet);
      NormalizeOnNetwork(r.value, wantTestnet) == r <==> !(':' in s && wantTestnet)
  {
    hide ToString, Parse;
    ParseToString(Parse(s).value);
    if ':' in s {
      RawHasNoNetwork(s);
    }
  }

  // ---- Account identity ----

  lemma FormatIntShape(n: int)
    ensures FormatInt(n) != "" && ':' !in FormatInt(n)
    ensures !IsSpace(FormatInt(n)[0])
  {
    var s := FormatInt(n);
    if n < 0 {
      assert forall i :: 0 < i < |s| ==> s[i] == FormatNat(-n)[i - 1];
    }
  }

  lemma {:induction false} FirstColon(s: string, t: string)
    requires ':' !in s
    ensures ':' in s + ":" + t && IndexOf(s + ":" + t, ':') == |s|
  {
    var i := IndexOf(s + ":" + t, ':');
    assert (s + ":" + t)[|s|] == ':';
    assert forall j :: 0 <= j < |s| ==> (s + ":" + t)[j] == s[j];
  }

  /** The raw form parses back to workchain and hash, for the supported
      workchains; it carries no flags. */
  lemma RawRoundTrip(a: Address)
    requires a.Valid()
    ensures Parse(Raw(a)) == if a.Supported() then Some(Address(a.workchain, a.hash, true, false)) else None
  {
    hide FormatInt, HexEncode, HexDecode, ParseInt, TrimSpace;
    var w, h := FormatInt(a.workchain), HexEncode(a.hash);
    var s := Raw(a);
    FormatIntShape(a.workchain);
    IntRoundTrip(a.workchain, INT32_LIMIT);
    HexRoundTrip(a.hash);
    FirstColon(w, h);
    assert s[0] == w[0] && s[|s| - 1] == h[63] && IsHex(h[63]);
    TrimIdentity(s);
    assert s[..|w|] == w && s[|w| + 1..] == h;
  }

  /** Raw forms agree exactly when workchain and hash do: the verifier's account
      comparison. */
  lemma SameAccount(a: Address, b: Address)
    requires a.Valid() && b.Valid()
    ensures Raw(a) == Raw(b) <==> a.workchain == b.workchain && a.hash == b.hash
  {
    hide FormatInt, HexEncode, ParseInt, HexDecode;
    if Raw(a) == Raw(b) {
      FormatIntShape(a.workchain);
      FormatIntShape(b.workchain);
      var w, v, g, h := FormatInt(a.workchain), FormatInt(b.workchain), HexEncode(a.hash), HexEncode(b.hash);
      FirstColon(w, g);
      FirstColon(v, h);
      assert w == Raw(a)[..|w|] && v == Raw(b)[..|v|];
      assert g == Raw(a)[|w| + 1..] && h == Raw(b)[|v| + 1..];
      IntRoundTrip(a.workchain, INT32_LIMIT);
      IntRoundTrip(b.workchain, INT32_LIMIT);
      HexRoundTrip(a.hash);
      HexRoundTrip(b.hash);
    }
  }

  // ---- Exactly what is printed and what is read ----

  /** The bytes of a user-friendly address: a tag of 0x11 if bounceable and 0x51 if not,
      with the high bit for a testnet; 0x00 for the basechain and 0xFF for the
      masterchain; the hash; and a checksum that makes the whole one zero. */
  ghost predicate IsPayload(p: seq<Byte>, a: Address, bounceable: bool)
    requires a.Supported()
  {
    && |p| == 36
    && p[0] == (if a.testnet then (if bounceable then 0x91 else 0xD1) else if bounceable then 0x11 else 0x51)
    && p[1] == (if a.workchain == 0 then 0x00 else 0xFF)
    && p[2..34] == a.hash
    && IsZero(Checksum(p))
  }

  lemma PayloadMeans(a: Address, bounceable: bool, p: seq<Byte>)
    requires a.Supported()
    ensures p == Payload(a, bounceable) <==> IsPayload(p, a, bounceable)
  {
    hide Checksum, BytesToBits, ToBits;
    var q, body := Payload(a, bounceable), Body(a, bounceable);
    var crc := Checksum(body);
    TrailerBits(crc);
    assert q[..34] == body && q[34..] == [ByteOf(crc[..8]), ByteOf(crc[8..])] && q == q[..34] + q[34..];
    ChecksumTest(q[..34], q[34..]);
    assert q[2..34] == a.hash;
    if IsPayload(p, a, bounceable) {
      assert p == p[..34] + p[34..] && p[..34] == p[..2] + p[2..34];
      assert p[..34] == body;
      ChecksumTest(p[..34], p[34..]);
      BytesToBitsInjective(p[34..], q[34..]);
    }
  }

  /** What is printed: the bytes of the address, spelt in the url-safe table. */
  lemma FriendlyMeans(a: Address, bounceable: bool)
    requires a.Supported()
    ensures exists p :: IsPayload(p, a, bounceable) && Spells(Friendly(a, bounceable), p, Url)
  {
    hide Payload, IsPayload, Spells, Encode;
    var p := Payload(a, bounceable);
    PayloadMeans(a, bounceable, p);
    EncodeMeans(p, Url);
  }

  /** The two characters an address begins with, by workchain, flag and network. */
  function Prefix(a: Address, bounceable: bool): string {
    if a.workchain == 0 then
      if a.testnet then (if bounceable then "kQ" else "0Q") else if bounceable then "EQ" else "UQ"
    else
      if a.testnet then (if bounceable then "kf" else "0f") else if bounceable then "Ef" else "Uf"
  }

  predicate UrlChar(c: char) {
    'A' <= c <= 'Z' || 'a' <= c <= 'z' || '0' <= c <= '9' || c == '-' || c == '_'
  }

  lemma TableUrl(v: nat)
    requires v < 64
    ensures UrlChar(Table(Url)[v])
  {
    EncodeCharTable(v, Url);
    hide Table;
  }

  /** Friendly forms are forty-eight url-safe characters and begin as is customary. */
  lemma FriendlyShape(a: Address, bounceable: bool)
    requires a.Supported()
    ensures var s := Friendly(a, bounceable);
      && |s| == 48 && (forall i :: 0 <= i < 48 ==> UrlChar(s[i]))
      && s[..2] == Prefix(a, bounceable)
  {
    hide Friendly, Table, UrlChar;
    var s := Friendly(a, bounceable);
    FriendlyMeans(a, bounceable);
    var p :| IsPayload(p, a, bounceable) && Spells(s, p, Url);
    forall i | 0 <= i < 48 ensures UrlChar(s[i]) {
      SpeltChar(s, p, i);
    }
    SpeltPrefix(s, p, a, bounceable);
  }

  lemma SpeltChar(s: string, p: seq<Byte>, i: nat)
    requires |p| == 36 && Spells(s, p, Url) && i < 48
    ensures UrlChar(s[i])
  {
    hide Table, UrlChar;
    var k := i / 4;
    assert SpellsGroup(s, p, Url, k);
    var x, y, z := p[3 * k], p[3 * k + 1], p[3 * k + 2];
    TableUrl(x / 4);
    TableUrl(x % 4 * 16 + y / 16);
    TableUrl(y % 16 * 4 + z / 64);
    TableUrl(z % 64);
    assert i == 4 * k || i == 4 * k + 1 || i == 4 * k + 2 || i == 4 * k + 3;
  }

  lemma SpeltPrefix(s: string, p: seq<Byte>, a: Address, bounceable: bool)
    requires a.Supported() && IsPayload(p, a, bounceable) && Spells(s, p, Url)
    ensures s[..2] == Prefix(a, bounceable)
  {
    hide Table, Checksum;
    assert SpellsGroup(s, p, Url, 0);
    var v, w := p[0] / 4, p[0] % 4 * 16 + p[1] / 16;
    EncodeCharTable(v, Url);
    EncodeCharTable(w, Url);
    assert s[0] == EncodeChar(v, Url) && s[1] == EncodeChar(w, Url);
  }

  /** Thirty-six bytes name an address exactly if they are its bytes. */
  lemma ParsePayloadIff(raw: seq<Byte>, a: Address)
    requires |raw| == 36
    ensures ParsePayload(raw) == Some(a) <==> a.Supported() && IsPayload(raw, a, a.bounceable)
  {
    hide Checksum, BytesToBits, ToBits;
    ChecksumTest(raw[..34], raw[34..]);
    assert raw == raw[..34] + raw[34..];
  }

  /** A text without a colon names an address exactly if, white space at its ends and
      line breaks aside, it spells the bytes of that address in one of the alphabets. */
  lemma FriendlyIff(s: string, a: Address)
    requires ':' !in s
    ensures Parse(s) == Some(a) <==>
      a.Supported() && exists alphabet, p :: IsPayload(p, a, a.bounceable) && Spells(Clean(TrimSpace(s)), p, alphabet)
  {
    hide Spells, IsPayload, ParsePayload, Encode, DecodeClean, TrimSpace, Clean;
    var t := TrimSpace(s);
    TrimKeeps(s, ':');
    if Parse(s) == Some(a) {
      var p := DecodeAny(t).value;
      ParsePayloadIff(p, a);
      var alphabet := if Decode(t, Url).Some? then Url else Std;
      DecodeIff(Clean(t), alphabet, p);
      EncodeOnly(Clean(t), p, alphabet);
      assert IsPayload(p, a, a.bounceable) && Spells(Clean(t), p, alphabet);
    }
    if a.Supported() && exists alphabet, p :: IsPayload(p, a, a.bounceable) && Spells(Clean(t), p, alphabet) {
      var alphabet, p :| IsPayload(p, a, a.bounceable) && Spells(Clean(t), p, alphabet);
      SpelledParses(t, alphabet, a, p);
      EmptyClean();
    }
  }

  lemma EmptyClean()
    ensures Clean("") == ""
  {
  }

  lemma SpelledParses(t: string, alphabet: Alphabet, a: Address, p: seq<Byte>)
    requires a.Supported() && IsPayload(p, a, a.bounceable) && Spells(Clean(t), p, alphabet)
    ensures ParseFriendly(t) == Some(a) && |Clean(t)| == 48
  {
    hide Spells, IsPayload, ParsePayload, Encode, DecodeClean, Clean;
    assert |p| == 36 by { PayloadLength(p, a, a.bounceable); }
    ParsePayloadIff(p, a);
    EncodeOnly(Clean(t), p, alphabet);
    DecodeIff(Clean(t), alphabet, p);
    FallbackOrder(t);
  }

  lemma PayloadLength(p: seq<Byte>, a: Address, bounceable: bool)
    requires a.Supported() && IsPayload(p, a, bounceable)
    ensures |p| == 36
  {
  }

  /** A text with a colon names an address exactly if, white space at its ends aside, it
      is the number of a workchain, a colon and the hash in sixty-four hexadecimal digits
      of either case; the address is then bounceable and on the mainnet. */
  lemma RawIff(s: string, w: string, h: string, a: Address)
    requires TrimSpace(s) == w + ":" + h && ':' !in w
    ensures Parse(s) == Some(a) <==>
      && a.Supported() && a.bounceable && !a.testnet && Reads(w, a.workchain)
      && |h| == 64 && (forall i :: 0 <= i < 64 ==> AnyHex(h[i]))
      && forall k :: 0 <= k < 32 ==> IsHexPair(a.hash[k], h[2 * k], h[2 * k + 1])
  {
    hide ParseInt, HexDecode, TrimSpace, AnyHex, IsHexPair, Reads;
    var t := TrimSpace(s);
    FirstColon(w, h);
    assert t[..|w|] == w && t[|w| + 1..] == h;
    ParseIntIff(w, INT32_LIMIT, 0);
    ParseIntIff(w, INT32_LIMIT, -1);
    HexDecodeMeans(h);
    if |h| == 64 && HexDecode(h).Some? && a.Supported() {
      var g := HexDecode(h).value;
      if forall k :: 0 <= k < 32 ==> IsHexPair(a.hash[k], h[2 * k], h[2 * k + 1]) {
        forall k | 0 <= k < 32 ensures g[k] == a.hash[k] {
          PairUnique(g[k], a.hash[k], h[2 * k], h[2 * k + 1]);
        }
        assert g == a.hash;
      }
    }
  }

  lemma PairUnique(b: Byte, c: Byte, hi: char, lo: char)
    requires IsHexPair(b, hi, lo) && IsHexPair(c, hi, lo)
    ensures b == c
  {
    HexTable(b / 16);
    HexTable(b % 16);
    HexTable(c / 16);
    HexTable(c % 16);
  }

  /** The raw form: the workchain, a colon, and the hash in lower-case digits. */
  lemma RawMeans(a: Address)
    requires a.Supported()
    ensures var s, w := Raw(a), if a.workchain == 0 then "0" else "-1";
      && s[..|w| + 1] == w + ":" && |s| == |w| + 65
      && forall k :: 0 <= k < 32 ==>
           var hi, lo := s[|w| + 1 + 2 * k], s[|w| + 2 + 2 * k];
           hi == "0123456789abcdef"[a.hash[k] / 16] && lo == "0123456789abcdef"[a.hash[k] % 16]
  {
    hide HexEncode;
    HexEncodeMeans(a.hash);
    assert FormatInt(a.workchain) == if a.workchain == 0 then "0" else "-1";
  }

  /** The normal form of an input is the one text of forty-eight url-safe characters
      that names the same address. */
  lemma NormalForm(s: string, p: string)
    ensures Normalize(s) == Some(p) <==>
      Parse(s).Some? && Parse(p) == Parse(s) && |p| == 48 && forall i :: 0 <= i < 48 ==> UrlChar(p[i])
  {
    hide Parse, UrlChar, ToString;
    if Parse(s).Some? {
      var a := Parse(s).value;
      ParseToString(a);
      FriendlyShape(a, a.bounceable);
      assert ToString(a) == Friendly(a, a.bounceable) by { Printing(a); }
      if Parse(p) == Some(a) && |p| == 48 && forall i :: 0 <= i < 48 ==> UrlChar(p[i]) {
        UrlSpelling(p, a);
      }
    }
  }

  lemma Printing(a: Address)
    requires a.Valid()
    ensures ToString(a) == Friendly(a, a.bounceable)
  {
  }

  lemma {:induction false} CleanUrl(p: string)
    requires forall i :: 0 <= i < |p| ==> UrlChar(p[i])
    ensures Clean(p) == p
  {
    if p != "" {
      CleanUrl(p[1..]);
    }
  }

  lemma UrlSpelling(p: string, a: Address)
    requires Parse(p) == Some(a) && |p| == 48 && forall i :: 0 <= i < 48 ==> UrlChar(p[i])
    ensures p == ToString(a)
  {
    hide Parse, Encode, Spells, IsPayload, Payload, Clean, TrimSpace;
    assert TrimSpace(p) == p by { TrimIdentity(p); }
    CleanUrl(p);
    FriendlyIff(p, a);
    var alphabet, q :| IsPayload(q, a, a.bounceable) && Spells(p, q, alphabet);
    PayloadLength(q, a, a.bounceable);
    EncodeOnly(p, q, alphabet);
    PayloadMeans(a, a.bounceable, q);
    if alphabet.Std? {
      UrlSafe(q);
    }
  }

  // ---- What the checksum detects ----

  lemma AcceptedPayload(raw: seq<Byte>)
    requires |raw| == 36 && ChecksumMatches(raw)
    ensures IsZero(Register(Zeros(16), BytesToBits(raw)))
  {
    hide BytesToBits, Register;
    ChecksumTest(raw[..34], raw[34..]);
    assert raw == raw[..34] + raw[34..];
  }

  /** Two different payloads with matching checksums differ in an even number of
      bits, in at least four, and over a span of more than sixteen. */
  lemma PayloadsFarApart(x: seq<Byte>, y: seq<Byte>)
    requires |x| == 36 && |y| == 36 && ChecksumMatches(x) && ChecksumMatches(y) && x != y
    ensures var e := Xor(BytesToBits(x), BytesToBits(y));
      && Weight(e) % 2 == 0 && Weight(e) >= 4
      && exists i, j :: 0 <= i < j < |e| && e[i] && e[j] && j - i >= 16
  {
    hide BytesToBits, Register, Weight, Checksum, ChecksumMatches;
    var m, k, z := BytesToBits(x), BytesToBits(y), Zeros(16);
    AcceptedPayload(x);
    AcceptedPayload(y);
    RegisterLinear(z, z, m, k);
    assert Xor(z, z) == z;
    if IsZero(Xor(m, k)) {
      assert forall i :: 0 <= i < |m| ==> m[i] == k[i] by {
        assert forall i :: 0 <= i < |m| ==> !Xor(m, k)[i];
      }
      BytesToBitsInjective(x, y);
    }
    Undetected(Xor(m, k));
  }

  /** An accepted string of forty-eight characters is a friendly form with no
      character to spare. */
  lemma Accepted48(s: string) returns (raw: seq<Byte>)
    requires |s| == 48 && Parse(s).Some?
    ensures |raw| == 36 && Parse(s) == ParsePayload(raw) && BytesToBits(raw) == CharBits(s)
  {
    hide DecodeClean, ParsePayload, CharBits, BytesToBits, ParseInt, HexDecode;
    var t := TrimSpace(s);
    assert ':' !in t;
    var a := if Decode(t, Url).Some? then Url else Std;
    raw := DecodeAny(t).value;
    assert DecodeClean(Clean(t), a) == Some(raw);
    WholeLength(Clean(t), a, raw);
    assert |Clean(t)| == 48;
    WholeBits(Clean(t), a, raw);
  }

  /** Whatever happens to two neighbouring characters of a friendly address, the
      result is rejected or names the same address. */
  lemma NeighboursCorrupted(s: string, s': string, i: nat)
    requires |s| == 48 && |s'| == 48 && i < 47
    requires forall j :: 0 <= j < 48 && j != i && j != i + 1 ==> s[j] == s'[j]
    requires Parse(s).Some? && Parse(s').Some?
    ensures Parse(s) == Parse(s')
  {
    hide Parse, ParsePayload, BytesToBits, CharBits, ToBits, CharValue;
    var raw := Accepted48(s);
    var raw' := Accepted48(s');
    if raw != raw' {
      ParsedChecksum(raw);
      ParsedChecksum(raw');
      PayloadsFarApart(raw, raw');
      var e := Xor(CharBits(s), CharBits(s'));
      var f, t :| 0 <= f < t < |e| && e[f] && e[t] && t - f >= 16;
      BitUnchanged(s, s', i, f);
      BitUnchanged(s, s', i, t);
    }
  }

  lemma ParsedChecksum(raw: seq<Byte>)
    requires |raw| == 36 && ParsePayload(raw).Some?
    ensures ChecksumMatches(raw)
  {
  }

  lemma BitUnchanged(s: string, s': string, i: nat, k: nat)
    requires |s| == |s'| && k < 6 * |s|
    requires forall j :: 0 <= j < |s| && j != i && j != i + 1 ==> s[j] == s'[j]
    ensures CharBits(s)[k] != CharBits(s')[k] ==> 6 * i <= k < 6 * i + 12
  {
  }

  lemma SubstitutionDetected(s: string, i: nat, c: char)
    requires |s| == 48 && i < 48
    ensures Parse(s).Some? && Parse(s[i := c]).Some? ==> Parse(s[i := c]) == Parse(s)
  {
    hide Parse;
    if Parse(s).Some? && Parse(s[i := c]).Some? {
      NeighboursCorrupted(s, s[i := c], if i == 47 then 46 else i);
    }
  }

  lemma TranspositionDetected(s: string, i: nat)
    requires |s| == 48 && i < 47
    ensures var t := s[i := s[i + 1]][i + 1 := s[i]];
      Parse(s).Some? && Parse(t).Some? ==> Parse(t) == Parse(s)
  {
    hide Parse;
    var t := s[i := s[i + 1]][i + 1 := s[i]];
    if Parse(s).Some? && Parse(t).Some? {
      NeighboursCorrupted(s, t, i);
    }
  }
}
