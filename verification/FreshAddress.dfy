/** Accepted addresses that are not yet in use: there are more hashes than invoices. */
module FreshAddress {
  import opened Bits
  import opened GoText
  import opened TonAddr
  import opened Outcomes
  import opened Sums

  /** A number in n bytes, most significant first. */
  function BytesOf(i: nat, n: nat): (r: seq<Byte>)
    ensures |r| == n
  {
    if n == 0 then [] else BytesOf(i / 256, n - 1) + [i % 256]
  }

  function ValueOf(s: seq<Byte>): nat {
    if s == [] then 0 else 256 * ValueOf(s[..|s| - 1]) + s[|s| - 1]
  }

  function Bound(n: nat): (r: nat)
    ensures r >= 1
  {
    if n == 0 then 1 else 256 * Bound(n - 1)
  }

  lemma {:induction false} BytesValue(i: nat, n: nat)
    requires i < Bound(n)
    ensures ValueOf(BytesOf(i, n)) == i
  {
    if n > 0 {
      BytesValue(i / 256, n - 1);
      assert BytesOf(i, n)[..n - 1] == BytesOf(i / 256, n - 1);
    }
  }

  lemma {:induction false} BoundGrows(m: nat, n: nat)
    requires m <= n
    ensures Bound(m) <= Bound(n)
  {
    if m < n {
      BoundGrows(m, n - 1);
    }
  }

  lemma BoundOfHash()
    ensures Bound(32) >= 2 * INT64_LIMIT
  {
    assert Bound(2) == 0x1_0000;
    assert Bound(4) == 0x1_0000_0000;
    assert Bound(6) == 0x1_0000_0000_0000;
    assert Bound(8) == 0x1_0000_0000_0000_0000;
    BoundGrows(8, 32);
  }

  /** The i-th basechain account of a network. */
  function Numbered(i: nat, testnet: bool): (a: Address)
    ensures a.Supported() && a.testnet == testnet && a.bounceable
  {
    Address(0, BytesOf(i, 32), true, testnet)
  }

  function Spelling(i: nat, testnet: bool): string {
    Friendly(Numbered(i, testnet), true)
  }

  lemma SpellingsDiffer(i: nat, j: nat, testnet: bool)
    requires i < j < Bound(32)
    ensures Spelling(i, testnet) != Spelling(j, testnet)
  {
    hide Friendly, Parse, BytesOf, ValueOf, Bound;
    ParseToString(Numbered(i, testnet));
    ParseToString(Numbered(j, testnet));
    BytesValue(i, 32);
    BytesValue(j, 32);
  }

  function FirstSpellings(n: nat, testnet: bool): set<string> {
    set i: nat | i < n :: Spelling(i, testnet)
  }

  lemma {:induction false} ManySpellings(n: nat, testnet: bool)
    requires n <= Bound(32)
    ensures |FirstSpellings(n, testnet)| == n
  {
    hide Spelling, Bound;
    if n > 0 {
      ManySpellings(n - 1, testnet);
      forall i: nat | i < n - 1 ensures Spelling(i, testnet) != Spelling(n - 1, testnet) {
        SpellingsDiffer(i, n - 1, testnet);
      }
      assert FirstSpellings(n, testnet) == FirstSpellings(n - 1, testnet) + {Spelling(n - 1, testnet)};
    }
  }

  lemma SomeFree(taken: set<string>, testnet: bool)
    requires |taken| < INT64_LIMIT
    ensures exists i: nat :: Spelling(i, testnet) !in taken
  {
    hide Spelling, Bound;
    BoundOfHash();
    ManySpellings(|taken| + 1, testnet);
    if forall i: nat :: Spelling(i, testnet) in taken {
      SubsetSize(FirstSpellings(|taken| + 1, testnet), taken);
    }
  }

  /** An address that the service accepts and that is not among those in use. */
  ghost function Fresh(setup: Setup, taken: set<string>): (payTo: string)
    requires |taken| < INT64_LIMIT
    ensures payTo !in taken && Accepts(setup, payTo)
  {
    SomeFree(taken, setup.testnet);
    var i: nat :| Spelling(i, setup.testnet) !in taken;
    FriendlyStored(setup, Numbered(i, setup.testnet), true);
    Spelling(i, setup.testnet)
  }
}
