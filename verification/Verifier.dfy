/** The matching loop of TonVerifier.Verify (internal/wallet/ton.go) and what it
    says about the chain. */
module Verifier {
  import opened GoText
  import opened Store
  import opened TonAddr

  /** A decoded entry of a getTransactions response; an absent time is 0, an absent
      destination is empty. */
  datatype Entry = Entry(hash: string, utime: int, destination: string, value: string, message: string)

  /** The decoded response, or none when the request failed in any way. */
  type Response = Option<seq<Entry>>

  datatype Verdict = Credited(txHash: string) | Unpaid | VerifyError

  const SECOND: int := 1_000_000_000
  const HOUR: int := 3600 * SECOND

  function Unix(t: int): int {
    t / SECOND
  }

  /** The account an address string names. */
  function Account(s: string): Option<string> {
    var a := Parse(s);
    if a.None? then None else Some(Raw(a.value))
  }

  /** A transaction older than the invoice by more than the clock skew. */
  predicate TooOld(e: Entry, inv: Invoice) {
    e.utime > 0 && inv.createdAt != ZERO_TIME && e.utime < Unix(inv.createdAt - HOUR)
  }

  /** A destination that is given but does not name the invoice's account. */
  predicate Elsewhere(e: Entry, inv: Invoice) {
    Account(inv.payTo).Some? && e.destination != "" && Account(e.destination) != Account(inv.payTo)
  }

  predicate Pays(e: Entry, inv: Invoice) {
    && e.message == inv.memo
    && !TooOld(e, inv)
    && !Elsewhere(e, inv)
    && ParseInt(e.value, INT64_LIMIT).Some?
    && ParseInt(e.value, INT64_LIMIT).value >= inv.amountNano
  }

  /** Entry i pays the invoice and none before it does. */
  ghost predicate IsFirst(inv: Invoice, entries: seq<Entry>, i: nat)
    requires i < |entries|
  {
    Pays(entries[i], inv) && forall j :: 0 <= j < i ==> !Pays(entries[j], inv)
  }

  /** The entry that the loop stops at. */
  function FirstMatch(inv: Invoice, entries: seq<Entry>): (r: Option<Entry>)
    ensures r.None? <==> forall i :: 0 <= i < |entries| ==> !Pays(entries[i], inv)
    ensures r.Some? ==> exists i :: 0 <= i < |entries| && IsFirst(inv, entries, i) && entries[i] == r.value
  {
    if entries == [] then None
    else if Pays(entries[0], inv) then Some(entries[0])
    else
      var r := FirstMatch(inv, entries[1..]);
      assert forall i :: 1 <= i < |entries| ==> entries[i] == entries[1..][i - 1];
      r
  }

  function Judge(inv: Invoice, response: Response): (v: Verdict)
    ensures v.VerifyError? <==> inv.payTo == "" || inv.memo == "" || response.None?
  {
    if inv.payTo == "" || inv.memo == "" || response.None? then VerifyError
    else
      var found := FirstMatch(inv, response.value);
      if found.None? then Unpaid else Credited(found.value.hash)
  }

  /** The entry a verdict was given on. */
  function Shown(inv: Invoice, response: Response): (e: Entry)
    requires Judge(inv, response).Credited?
    ensures e in response.value && Pays(e, inv) && e.hash == Judge(inv, response).txHash
  {
    FirstMatch(inv, response.value).value
  }

  /** Verify after the request: the guards and the early-exit loop. */
  method Verify(inv: Invoice, response: Response) returns (v: Verdict)
    ensures v == Judge(inv, response)
  {
    hide Account, ParseInt;
    if inv.payTo == "" {
      return VerifyError;
    }
    if inv.memo == "" {
      return VerifyError;
    }
    if response.None? {
      return VerifyError;
    }
    var want := Account(inv.payTo);
    var n := |response.value|;
    for i := 0 to n
      invariant FirstMatch(inv, response.value) == FirstMatch(inv, response.value[i..])
    {
      var tx := response.value[i];
      assert response.value[i..][1..] == response.value[i + 1..];
      if tx.message != inv.memo {
        continue;
      }
      if tx.utime > 0 && inv.createdAt != ZERO_TIME && tx.utime < Unix(inv.createdAt - HOUR) {
        continue;
      }
      if want.Some? && tx.destination != "" {
        var got := Account(tx.destination);
        if got.None? || got.value != want.value {
          continue;
        }
      }
      var val := ParseInt(tx.value, INT64_LIMIT);
      if val.None? {
        continue;
      }
      if val.value >= inv.amountNano {
        return Credited(tx.hash);
      }
    }
    return Unpaid;
  }

  /** What an entry must show to pay an invoice: the exact memo; a decimal value that fits
      64 bits and covers the amount; no destination or, if the invoice's address names an
      account, that account; and no time or one whose second ends later than an hour
      before the invoice was created, unless the invoice has no time. */
  ghost predicate Qualifies(e: Entry, inv: Invoice) {
    && e.message == inv.memo
    && (exists v :: Reads(e.value, v) && inv.amountNano <= v && -9_223_372_036_854_775_808 <= v < 9_223_372_036_854_775_808)
    && (e.destination != "" && Parse(inv.payTo).Some? ==>
          && Parse(e.destination).Some?
          && Parse(e.destination).value.workchain == Parse(inv.payTo).value.workchain
          && Parse(e.destination).value.hash == Parse(inv.payTo).value.hash)
    && (e.utime > 0 && inv.createdAt != -62_135_596_800_000_000_000 ==>
          (e.utime + 1) * 1_000_000_000 > inv.createdAt - 3_600_000_000_000)
  }

  lemma ValueIff(e: Entry, amount: int)
    ensures ParseInt(e.value, INT64_LIMIT).Some? && ParseInt(e.value, INT64_LIMIT).value >= amount <==>
      exists v :: Reads(e.value, v) && amount <= v && -9_223_372_036_854_775_808 <= v < 9_223_372_036_854_775_808
  {
    hide ParseInt, Reads;
    var r := ParseInt(e.value, INT64_LIMIT);
    if r.Some? {
      ParseIntIff(e.value, INT64_LIMIT, r.value);
    }
    if v :| Reads(e.value, v) && amount <= v && -9_223_372_036_854_775_808 <= v < 9_223_372_036_854_775_808 {
      ParseIntIff(e.value, INT64_LIMIT, v);
    }
  }

  lemma SameAccountIff(s: string, t: string)
    requires Account(t).Some?
    ensures Account(s) == Account(t) <==>
      && Parse(t).Some? && Parse(s).Some?
      && Parse(s).value.workchain == Parse(t).value.workchain && Parse(s).value.hash == Parse(t).value.hash
  {
    hide Parse, Raw;
    if Parse(s).Some? {
      SameAccount(Parse(s).value, Parse(t).value);
    }
  }

  lemma TimeIff(utime: int, createdAt: int)
    ensures utime < Unix(createdAt - HOUR) <==> (utime + 1) * 1_000_000_000 <= createdAt - 3_600_000_000_000
  {
  }

  lemma PaysIff(e: Entry, inv: Invoice)
    ensures Pays(e, inv) <==> Qualifies(e, inv)
  {
    hide Parse, ParseInt, Raw, Reads, Unix;
    ValueIff(e, inv.amountNano);
    TimeIff(e.utime, inv.createdAt);
    if Account(inv.payTo).Some? {
      SameAccountIff(e.destination, inv.payTo);
    }
  }

  /** The first entry that qualifies. */
  ghost predicate FirstQualifying(inv: Invoice, entries: seq<Entry>, i: nat)
    requires i < |entries|
  {
    Qualifies(entries[i], inv) && forall j :: 0 <= j < i ==> !Qualifies(entries[j], inv)
  }

  /** The first entry that qualifies has this hash. */
  ghost predicate PaidBy(inv: Invoice, entries: seq<Entry>, hash: string) {
    exists i :: 0 <= i < |entries| && FirstQualifying(inv, entries, i) && entries[i].hash == hash
  }

  ghost predicate Unmatched(inv: Invoice, entries: seq<Entry>) {
    forall i :: 0 <= i < |entries| ==> !Qualifies(entries[i], inv)
  }

  lemma {:induction false} NoMatchMeans(inv: Invoice, entries: seq<Entry>)
    ensures FirstMatch(inv, entries).None? <==> Unmatched(inv, entries)
  {
    hide Pays, Qualifies;
    forall i | 0 <= i < |entries| ensures Pays(entries[i], inv) <==> Qualifies(entries[i], inv) {
      PaysIff(entries[i], inv);
    }
  }

  lemma {:induction false} MatchMeans(inv: Invoice, entries: seq<Entry>, i: nat)
    requires i < |entries| && FirstQualifying(inv, entries, i)
    ensures FirstMatch(inv, entries) == Some(entries[i])
  {
    hide Pays, Qualifies;
    PaysIff(entries[0], inv);
    if i > 0 {
      var rest := entries[1..];
      assert forall j :: 0 <= j < |rest| ==> rest[j] == entries[j + 1];
      MatchMeans(inv, rest, i - 1);
    }
  }

  lemma MatchFound(inv: Invoice, entries: seq<Entry>, hash: string)
    ensures FirstMatch(inv, entries).Some? && FirstMatch(inv, entries).value.hash == hash <==> PaidBy(inv, entries, hash)
  {
    hide Pays, Qualifies, FirstMatch, FirstQualifying;
    if FirstMatch(inv, entries).Some? {
      var i :| 0 <= i < |entries| && IsFirst(inv, entries, i) && entries[i] == FirstMatch(inv, entries).value;
      IsFirstQualifies(inv, entries, i);
    }
    if PaidBy(inv, entries, hash) {
      var i :| 0 <= i < |entries| && FirstQualifying(inv, entries, i) && entries[i].hash == hash;
      MatchMeans(inv, entries, i);
    }
  }

  lemma IsFirstQualifies(inv: Invoice, entries: seq<Entry>, i: nat)
    requires i < |entries| && IsFirst(inv, entries, i)
    ensures FirstQualifying(inv, entries, i)
  {
    hide Pays, Qualifies;
    forall j | 0 <= j <= i ensures Pays(entries[j], inv) <==> Qualifies(entries[j], inv) {
      PaysIff(entries[j], inv);
    }
  }

  /** The verdict: an error for an empty address, an empty memo or a failed request; and
      otherwise the hash of the first entry that qualifies, or unpaid if none does. */
  lemma JudgeMeans(inv: Invoice, response: Response)
    ensures var v, asked := Judge(inv, response), inv.payTo != "" && inv.memo != "" && response.Some?;
      && (v.VerifyError? <==> !asked)
      && (v.Unpaid? <==> asked && Unmatched(inv, response.value))
      && forall hash :: v == Credited(hash) <==> asked && PaidBy(inv, response.value, hash)
  {
    hide PaidBy, Unmatched, FirstMatch;
    if response.Some? {
      NoMatchMeans(inv, response.value);
      forall hash ensures FirstMatch(inv, response.value).Some? && FirstMatch(inv, response.value).value.hash == hash
        <==> PaidBy(inv, response.value, hash)
      {
        MatchFound(inv, response.value, hash);
      }
    }
  }

  // ---- The chain ----

  /** A transaction in a committed block. */
  datatype Tx = Tx(account: string, utime: int, value: nat, message: string)

  /** Transactions by hash. The chain only grows. */
  type Chain = map<string, Tx>

  ghost predicate Grows(chain: Chain, chain': Chain) {
    forall h :: h in chain ==> h in chain' && chain'[h] == chain[h]
  }

  /** An entry reports a transaction of the chain: what it states is true, and a
      destination it leaves out is the account that was asked about. */
  ghost predicate Reports(chain: Chain, payTo: string, e: Entry) {
    && e.hash in chain
    && e.message == chain[e.hash].message
    && (e.utime > 0 ==> e.utime == chain[e.hash].utime)
    && (ParseInt(e.value, INT64_LIMIT).Some? ==> ParseInt(e.value, INT64_LIMIT).value == chain[e.hash].value)
    && (Account(e.destination).Some? ==> Account(e.destination).value == chain[e.hash].account)
    && (e.destination == "" && Account(payTo).Some? ==> chain[e.hash].account == Account(payTo).value)
  }

  /** Any window of true entries, in any order, possibly repeated. */
  ghost predicate Honest(chain: Chain, payTo: string, response: Response) {
    response.Some? ==> forall i :: 0 <= i < |response.value| ==> Reports(chain, payTo, response.value[i])
  }

  /** An entry that reports a transaction of the chain and pays an invoice. */
  ghost predicate Witness(chain: Chain, inv: Invoice, e: Entry) {
    Reports(chain, inv.payTo, e) && Pays(e, inv)
  }

  /** The entry an invoice is credited on is its witness. */
  lemma CreditedHasWitness(chain: Chain, inv: Invoice, response: Response)
    requires Honest(chain, inv.payTo, response)
    ensures Judge(inv, response).Credited? ==>
      Witness(chain, inv, Shown(inv, response)) && Shown(inv, response).hash == Judge(inv, response).txHash
  {
    hide Pays, Reports, FirstMatch;
    if Judge(inv, response).Credited? {
      var i :| 0 <= i < |response.value| && response.value[i] == Shown(inv, response);
      assert Reports(chain, inv.payTo, response.value[i]);
    }
  }

  /** What a witness is worth: a transaction with the exact memo and at least the
      amount, to the invoice's account if that parses, and, if the entry gives a time,
      not made more than an hour before the invoice. */
  ghost predicate Worth(chain: Chain, inv: Invoice, e: Entry) {
    && e.hash in chain
    && chain[e.hash].message == inv.memo && chain[e.hash].value >= inv.amountNano
    && (Account(inv.payTo).Some? ==> chain[e.hash].account == Account(inv.payTo).value)
    && (e.utime > 0 && inv.createdAt != ZERO_TIME ==> chain[e.hash].utime >= Unix(inv.createdAt - HOUR))
  }

  lemma WitnessPays(chain: Chain, inv: Invoice, e: Entry)
    requires Witness(chain, inv, e)
    ensures Worth(chain, inv, e)
  {
    hide Account, ParseInt;
  }

  lemma WitnessStays(chain: Chain, chain': Chain, inv: Invoice, inv': Invoice, e: Entry)
    requires Witness(chain, inv, e) && Grows(chain, chain') && SameTerms(inv, inv')
    ensures Witness(chain', inv', e)
  {
    hide Account, ParseInt;
  }

  /** What a payer owes, fixed when the invoice is created. */
  predicate SameTerms(inv: Invoice, inv': Invoice) {
    && inv.id == inv'.id && inv.payTo == inv'.payTo && inv.memo == inv'.memo && inv.amountNano == inv'.amountNano
    && inv.currency == inv'.currency && inv.metadata == inv'.metadata
    && inv.createdAt == inv'.createdAt && inv.expiresAt == inv'.expiresAt
  }

  // ---- Accounts and spellings ----

  /** The spelling of an address does not matter to the verifier, but it does to the
      store: the two spellings of an account are separate keys, so one transaction
      can pay an invoice under each. */
  lemma SpellingsKeptApart(a: Address, inv: Invoice, inv': Invoice, e: Entry)
    requires a.Supported()
    requires inv.payTo == Friendly(a, true) && inv' == inv.(payTo := Friendly(a, false))
    ensures KeyOf(inv) != KeyOf(inv')
    ensures Account(inv.payTo) == Account(inv'.payTo) == Some(Raw(a))
    ensures Pays(e, inv) <==> Pays(e, inv')
  {
    hide MemoKey, Spell, Parse, ParseInt;
    var b, c := Address(a.workchain, a.hash, true, a.testnet), Address(a.workchain, a.hash, false, a.testnet);
    ParseToString(b);
    ParseToString(c);
    SameSpelling(a, true);
    SameSpelling(a, false);
    SameAccount(a, b);
    SameAccount(a, c);
    MemoKeyInjective(inv.payTo, inv.memo, inv'.payTo, inv'.memo);
  }

  lemma SameSpelling(a: Address, bounceable: bool)
    requires a.Valid()
    ensures Friendly(a, bounceable) == Friendly(a.(bounceable := bounceable), bounceable)
  {
  }
}
