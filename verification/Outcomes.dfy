/** What CheckStatus and CreateInvoice of internal/service/service.go do when no
    other call runs beside them. */
module Outcomes {
  import opened GoText
  import opened Store
  import opened Verifier
  import opened Protocol
  import opened TonAddr
  import opened Sums

  // ---- CheckStatus ----

  /** What one check meets: the response to its request, its one reading of the clock,
      and whether its write reaches the disk. */
  datatype Env = Env(response: Response, now: int, diskOk: bool)

  /** The store after a check, the notifications it sends, and its reply. */
  datatype Checked = Checked(store: Mem, sent: seq<Invoice>, reply: Reply)

  function Lookup(m: Mem, id: string, default: Invoice): Invoice {
    if id in m.invoices then m.invoices[id] else default
  }

  function Settle(m: Mem, inv: Invoice, tx: string, hooked: bool, env: Env): Checked {
    var (m', outcome) := Claim(m, inv.id, tx, env.now, env.diskOk);
    match outcome
    case Failed => Checked(m', [], StoreError(inv))
    case Refused => Checked(m', [], Replied(Lookup(m', inv.id, inv)))
    case Done =>
      var paid := Settled(inv, tx, env.now);
      Checked(m', if hooked then [paid] else [], Replied(paid))
  }

  /** Under the lock: another call may have settled the invoice since it was read. */
  function Reread(m: Mem, id: string, tx: string, hooked: bool, env: Env): Checked {
    if id !in m.invoices then Checked(m, [], NotFound)
    else if m.invoices[id].status != Pending then Checked(m, [], Replied(m.invoices[id]))
    else Settle(m, m.invoices[id], tx, hooked, env)
  }

  function ExpireNow(m: Mem, inv: Invoice, env: Env): Checked {
    var (m', outcome) := Expire(m, inv.id, env.diskOk);
    match outcome
    case Failed => Checked(m', [], StoreError(inv))
    case Refused => Checked(m', [], Replied(Lookup(m', inv.id, inv)))
    case Done => Checked(m', [], Replied(Lapsed(inv)))
  }

  /** Payment comes before expiry, and a failed verification counts as unpaid. */
  function Check(m: Mem, id: string, hooked: bool, env: Env): Checked {
    if id !in m.invoices then Checked(m, [], NotFound)
    else
      var inv := m.invoices[id];
      if inv.status != Pending then Checked(m, [], Replied(inv))
      else
        var verdict := Judge(inv, env.response);
        if verdict.Credited? then Settle(m, inv, verdict.txHash, hooked, env)
        else if Overdue(inv, env.now) then ExpireNow(m, inv, env)
        else Checked(m, [], Replied(inv))
  }

  /** Checking again changes nothing once the invoice is settled or expired. */
  lemma CheckTwice(m: Mem, id: string, hooked: bool, env: Env, again: Env)
    requires Distinct(m.invoices)
    requires var c := Check(m, id, hooked, env); c.reply.Replied? && c.reply.inv.status != Pending
    ensures var c := Check(m, id, hooked, env);
      Check(c.store, id, hooked, again) == Checked(c.store, [], c.reply)
  {
    hide Judge, KeyOf;
  }

  /** The request can be made and answered, and some entry of the answer qualifies. */
  ghost predicate Payable(inv: Invoice, response: Response) {
    inv.payTo != "" && inv.memo != "" && response.Some? && !Unmatched(inv, response.value)
  }

  /** The store with one invoice changed, on disk too if it has one. */
  function Rewritten(m: Mem, inv: Invoice): Mem {
    var ledger := m.invoices[inv.id := inv];
    m.(invoices := ledger, disk := if m.durable then Some(ledger) else m.disk)
  }

  /** What a check does, in terms of what it was shown. Nothing to a missing invoice or
      one that is no longer pending. A pending one is paid on the first entry that
      qualifies, exactly when one does; otherwise it expires exactly when it has a
      deadline that the clock has passed, failed verifications included; and in either
      case only if the write works. Payment comes first. */
  lemma CheckMeans(m: Mem, id: string, hooked: bool, env: Env)
    requires id in m.invoices ==> m.invoices[id].id == id
    ensures var c, written := Check(m, id, hooked, env), m.durable ==> env.diskOk;
      if id !in m.invoices then c == Checked(m, [], NotFound)
      else
        var inv := m.invoices[id];
        var late := inv.expiresAt != -62_135_596_800_000_000_000 && env.now > inv.expiresAt;
        if inv.status != Pending then c == Checked(m, [], Replied(inv))
        else if Payable(inv, env.response) && written then
          exists hash :: PaidBy(inv, env.response.value, hash)
            && var paid := inv.(status := Paid, txHash := hash, paidAt := env.now);
               c == Checked(Rewritten(m, paid), if hooked then [paid] else [], Replied(paid))
        else if !Payable(inv, env.response) && late && written then
          var gone := inv.(status := Expired);
          c == Checked(Rewritten(m, gone), [], Replied(gone))
        else
          c == Checked(m, [], if Payable(inv, env.response) || late then StoreError(inv) else Replied(inv))
  {
    hide KeyOf, Judge, PaidBy, Unmatched;
    if IsPending(m.invoices, id) {
      var inv := m.invoices[id];
      var verdict := Judge(inv, env.response);
      JudgeMeans(inv, env.response);
      Undone(m, id, Lapsed(inv), env.diskOk);
      if verdict.Credited? {
        assert PaidBy(inv, env.response.value, verdict.txHash);
        Undone(m, id, Settled(inv, verdict.txHash, env.now), env.diskOk);
      }
    }
  }

  lemma Undone(m: Mem, id: string, updated: Invoice, diskOk: bool)
    requires IsPending(m.invoices, id)
    ensures var (m', outcome) := Move(m, id, updated, diskOk);
      if m.durable ==> diskOk then outcome.Done? && (updated.id == id ==> m' == Rewritten(m, updated))
      else outcome.Failed? && m' == m
  {
    assert m.invoices[id := updated][id := m.invoices[id]] == m.invoices;
  }

  // ---- CreateInvoice ----

  datatype CreateError = BadAmount | BadAddress | NoAddress | BadMetadata | TooManyTotal | TooManyForAddress | WriteFailed | MemosTaken

  datatype Created = Created(inv: Invoice) | Rejected(error: CreateError)

  /** One attempt to insert: the id and memo drawn and the fate of the write. */
  datatype Draw = Draw(id: string, memo: string, diskOk: bool)

  datatype Setup = Setup(limits: Config, testnet: bool, defaultPayTo: string)

  /** Where the payment goes: the caller's address, canonical and on our network, or
      the default. */
  function Receiver(setup: Setup, payTo: string): (r: Option<string>) {
    if payTo == "" then Some(setup.defaultPayTo) else NormalizeOnNetwork(payTo, setup.testnet)
  }

  /** The address that an invoice is stored under when a caller asks for one, if the
      service accepts it. */
  function Stored(setup: Setup, payTo: string): Option<string> {
    var r := Receiver(setup, payTo);
    if r == Some("") then None else r
  }

  /** An address that invoices can be stored under. */
  ghost predicate Accepts(setup: Setup, payTo: string) {
    exists p :: Stored(setup, p) == Some(payTo)
  }

  const MAX_METADATA_KEYS := 64
  const MAX_METADATA_BYTES := 8 * 1024

  /** The length of a Go string: bytes of UTF-8. */
  function Bytes(s: string): (n: nat)
    ensures |s| <= n <= 4 * |s|
  {
    if s == "" then 0
    else
      var c := s[|s| - 1] as int;
      Bytes(s[..|s| - 1]) + if c < 0x80 then 1 else if c < 0x800 then 2 else if c < 0x1_0000 then 3 else 4
  }

  /** Strings are measured character by character. */
  lemma {:induction false} BytesConcat(s: string, t: string)
    ensures Bytes(s + t) == Bytes(s) + Bytes(t)
  {
    if t == "" {
      assert s + t == s;
    } else {
      var n := |t| - 1;
      BytesConcat(s, t[..n]);
      assert (s + t)[..|s + t| - 1] == s + t[..n];
    }
  }

  /** UTF-8 (RFC 3629, section 3): the length grows after U+007F, U+07FF and U+FFFF. */
  lemma BytesOne(c: char)
    ensures Bytes([c]) == if c <= '\U{7F}' then 1 else if c <= '\U{7FF}' then 2 else if c <= '\U{FFFF}' then 3 else 4
  {
    assert [c][..0] == "";
  }

  ghost function EntryBytes(metadata: map<string, string>): map<string, int> {
    map k | k in metadata :: Bytes(k) + Bytes(metadata[k])
  }

  /** Metadata of at most so many keys, and so many bytes of keys and values. */
  ghost predicate MetadataFits(metadata: map<string, string>) {
    |metadata| <= MAX_METADATA_KEYS && Total(EntryBytes(metadata)) <= MAX_METADATA_BYTES
  }

  function With(draft: Invoice, d: Draw): Invoice {
    Drawn(draft, d.id, d.memo)
  }

  /** The first draw whose memo is free decides; the draws before it change nothing. */
  function Insert(m: Mem, draft: Invoice, draws: seq<Draw>): (Mem, Created) {
    if draws == [] then (m, Rejected(MemosTaken))
    else
      var (m', outcome) := Create(m, With(draft, draws[0]), draws[0].diskOk);
      match outcome
      case Done => (m', Created(With(draft, draws[0])))
      case Failed => (m', Rejected(WriteFailed))
      case Refused => Insert(m, draft, draws[1..])
  }

  function CapError(cfg: Config, ledger: Ledger, payTo: string): Option<CreateError> {
    if AtCap(cfg.maxPending, |PendingOf(ledger)|) then Some(TooManyTotal)
    else if AtCap(cfg.maxPendingPerAddr, |PendingFor(ledger, payTo)|) then Some(TooManyForAddress)
    else None
  }

  ghost function CreateNew(m: Mem, setup: Setup, job: Job, now: int, draws: seq<Draw>): (Mem, Created)
    requires job.CreateInvoice?
  {
    if job.amountNano <= 0 then (m, Rejected(BadAmount))
    else
      var addr := Receiver(setup, job.payTo);
      if addr.None? then (m, Rejected(BadAddress))
      else if addr.value == "" then (m, Rejected(NoAddress))
      else if !MetadataFits(job.metadata) then (m, Rejected(BadMetadata))
      else
        var over := CapError(setup.limits, m.invoices, addr.value);
        if over.Some? then (m, Rejected(over.value))
        else Insert(m, Draft(setup.limits, job.(payTo := addr.value), now), draws)
  }

  ghost predicate Taken(m: Mem, draft: Invoice, d: Draw) {
    MemoKey(draft.payTo, d.memo) in m.memos
  }

  ghost predicate FirstFree(m: Mem, draft: Invoice, draws: seq<Draw>, i: nat)
    requires i < |draws|
  {
    !Taken(m, draft, draws[i]) && forall j :: 0 <= j < i ==> Taken(m, draft, draws[j])
  }

  /** The retry loop: the first draw with a free memo is stored if its write works and
      rolled back if not, and with no free draw the store is left as it was. */
  lemma {:induction false} InsertMeans(m: Mem, draft: Invoice, draws: seq<Draw>)
    ensures var (m', r) := Insert(m, draft, draws);
      && (r == Rejected(MemosTaken) <==> forall i :: 0 <= i < |draws| ==> Taken(m, draft, draws[i]))
      && (r == Rejected(MemosTaken) ==> m' == m)
      && (r.Created? ==> exists i :: (0 <= i < |draws| && FirstFree(m, draft, draws, i)
            && r.inv == With(draft, draws[i]) && m' == Create(m, r.inv, draws[i].diskOk).0))
      && (r.Created? ==> r.inv.id in m'.invoices && m'.invoices[r.inv.id] == r.inv)
      && (r.Rejected? && r.error != MemosTaken ==>
            && r.error == WriteFailed && m.durable
            && exists i :: (0 <= i < |draws| && FirstFree(m, draft, draws, i)
                 && !draws[i].diskOk && m' == Create(m, With(draft, draws[i]), false).0))
  {
    hide MemoKey;
    if draws != [] && Taken(m, draft, draws[0]) {
      InsertMeans(m, draft, draws[1..]);
      var rest := draws[1..];
      assert forall i :: 1 <= i < |draws| ==> draws[i] == rest[i - 1];
    }
  }

  ghost predicate Proper(cfg: Config) {
    cfg.defaultTTL > 0 && cfg.maxTTL > 0
  }

  lemma PendingGrows(ledger: Ledger, inv: Invoice)
    requires inv.id !in ledger && inv.status == Pending
    ensures |PendingOf(ledger[inv.id := inv])| == |PendingOf(ledger)| + 1
  {
    assert PendingOf(ledger[inv.id := inv]) == PendingOf(ledger) + {inv.id};
  }

  lemma PendingForGrows(ledger: Ledger, inv: Invoice)
    requires inv.id !in ledger && inv.status == Pending
    ensures |PendingFor(ledger[inv.id := inv], inv.payTo)| == |PendingFor(ledger, inv.payTo)| + 1
  {
    assert PendingFor(ledger[inv.id := inv], inv.payTo) == PendingFor(ledger, inv.payTo) + {inv.id};
  }

  /** The first draw with a free memo, if any, and whether its write works, decide. */
  lemma {:induction false} InsertWorks(m: Mem, draft: Invoice, draws: seq<Draw>)
    requires forall d :: d in draws ==> d.id !in m.invoices
    ensures var (m', r) := Insert(m, draft, draws);
      && (r.Created? <==> exists i :: 0 <= i < |draws| && FirstFree(m, draft, draws, i) && (m.durable ==> draws[i].diskOk))
      && (r.Rejected? ==> m' == m)
  {
    hide MemoKey;
    if draws != [] {
      var rest := draws[1..];
      InsertEffect(m, With(draft, draws[0]), draws[0].diskOk);
      if Taken(m, draft, draws[0]) {
        InsertWorks(m, draft, rest);
        forall i | 0 <= i < |rest| ensures FirstFree(m, draft, rest, i) <==> FirstFree(m, draft, draws, i + 1) {
          FirstFreeShift(m, draft, draws, i);
        }
        if i :| 0 <= i < |rest| && FirstFree(m, draft, rest, i) && (m.durable ==> rest[i].diskOk) {
          assert FirstFree(m, draft, draws, i + 1);
        }
        if i :| 0 <= i < |draws| && FirstFree(m, draft, draws, i) && (m.durable ==> draws[i].diskOk) {
          assert FirstFree(m, draft, rest, i - 1);
        }
      } else {
        assert FirstFree(m, draft, draws, 0);
      }
    }
  }

  lemma FirstFreeShift(m: Mem, draft: Invoice, draws: seq<Draw>, i: nat)
    requires i + 1 < |draws| && Taken(m, draft, draws[0])
    ensures FirstFree(m, draft, draws[1..], i) <==> FirstFree(m, draft, draws, i + 1)
  {
    hide Taken;
    var rest := draws[1..];
    assert forall j :: 0 < j < |draws| ==> draws[j] == rest[j - 1];
    assert forall j :: 0 <= j < |rest| ==> rest[j] == draws[j + 1];
  }

  lemma {:induction false} InsertIff(m: Mem, draft: Invoice, draws: seq<Draw>, inv: Invoice)
    requires forall d :: d in draws ==> d.id !in m.invoices
    ensures Insert(m, draft, draws).1 == Created(inv) <==>
      exists i :: 0 <= i < |draws| && FirstFree(m, draft, draws, i) && (m.durable ==> draws[i].diskOk) && inv == With(draft, draws[i])
  {
    hide Insert, Taken;
    InsertMeans(m, draft, draws);
    InsertWorks(m, draft, draws);
  }

  /** The address that an invoice carries: the caller's, respelt in forty-eight url-safe
      characters that name the same address, if it has a colon or is on our network; and
      the default, as it is configured, for a caller who gives none. */
  ghost predicate PaysTo(setup: Setup, payTo: string, addr: string) {
    if payTo == "" then addr == setup.defaultPayTo != ""
    else
      && Parse(payTo).Some? && (':' in payTo || Parse(payTo).value.testnet == setup.testnet)
      && Parse(addr) == Parse(payTo) && |addr| == 48 && forall i :: 0 <= i < 48 ==> UrlChar(addr[i])
  }

  lemma PaysToIff(setup: Setup, payTo: string, addr: string)
    ensures Stored(setup, payTo) == Some(addr) <==> PaysTo(setup, payTo, addr)
  {
    hide Parse, UrlChar, ToString;
    NormalForm(payTo, addr);
    if payTo != "" && Normalize(payTo).Some? {
      NormalizePlain(payTo);
    }
  }

  /** At most 64 keys, and at most 8192 bytes of keys and values. */
  ghost predicate Small(metadata: map<string, string>) {
    |metadata| <= 64 && Total(map k | k in metadata :: Bytes(k) + Bytes(metadata[k])) <= 8192
  }

  /** The caps, if positive, have room. */
  ghost predicate HasRoom(cfg: Config, ledger: Ledger, addr: string) {
    && (cfg.maxPending > 0 ==> |set id | id in ledger && ledger[id].status == Pending| < cfg.maxPending)
    && (cfg.maxPendingPerAddr > 0 ==>
          |set id | id in ledger && ledger[id].status == Pending && ledger[id].payTo == addr| < cfg.maxPendingPerAddr)
  }

  /** The invoice that a creation returns, in every field. */
  ghost predicate IsNew(setup: Setup, job: Job, now: int, d: Draw, inv: Invoice)
    requires job.CreateInvoice?
  {
    && inv.id == d.id && inv.memo == d.memo && PaysTo(setup, job.payTo, inv.payTo)
    && inv.amountNano == job.amountNano && inv.currency == "TON" && inv.metadata == job.metadata
    && inv.status == Pending && inv.txHash == "" && inv.paidAt == -62_135_596_800_000_000_000
    && inv.createdAt == now && IsDeadline(setup.limits, job.ttl, now, inv.expiresAt)
  }

  lemma IsNewIff(setup: Setup, job: Job, now: int, d: Draw, inv: Invoice)
    requires job.CreateInvoice?
    ensures IsNew(setup, job, now, d, inv) <==>
      var addr := Stored(setup, job.payTo); addr.Some? && inv == With(Draft(setup.limits, job.(payTo := addr.value), now), d)
  {
    hide PaysTo, Stored;
    PaysToIff(setup, job.payTo, inv.payTo);
  }

  /** A creation returns an invoice exactly when the amount is positive, the metadata
      small, both caps have room, the address good, the first draw with a free memo is
      written, and the invoice is the one asked for. */
  lemma CreatedIff(m: Mem, setup: Setup, job: Job, now: int, draws: seq<Draw>, inv: Invoice)
    requires job.CreateInvoice? && forall d :: d in draws ==> d.id !in m.invoices
    ensures CreateNew(m, setup, job, now, draws).1 == Created(inv) <==>
      && job.amountNano > 0 && Small(job.metadata) && HasRoom(setup.limits, m.invoices, inv.payTo)
      && exists i :: 0 <= i < |draws| && IsNew(setup, job, now, draws[i], inv)
           && FirstFree(m, inv, draws, i) && (m.durable ==> draws[i].diskOk)
  {
    hide NormalizeOnNetwork, Insert, FirstFree, IsNew, MetadataFits, Draft;
    var addr := Stored(setup, job.payTo);
    SmallIff(job.metadata);
    forall i | 0 <= i < |draws|
      ensures IsNew(setup, job, now, draws[i], inv) <==>
        addr.Some? && inv == With(Draft(setup.limits, job.(payTo := addr.value), now), draws[i])
    {
      IsNewIff(setup, job, now, draws[i], inv);
    }
    if addr.Some? {
      var draft := Draft(setup.limits, job.(payTo := addr.value), now);
      DraftAddress(setup.limits, job.(payTo := addr.value), now);
      InsertIff(m, draft, draws, inv);
      RoomIff(setup.limits, m.invoices, addr.value);
      forall i | 0 <= i < |draws| && inv.payTo == draft.payTo ensures FirstFree(m, draft, draws, i) <==> FirstFree(m, inv, draws, i) {
        SameFree(m, draft, inv, draws, i);
      }
    }
  }

  lemma SameFree(m: Mem, a: Invoice, b: Invoice, draws: seq<Draw>, i: nat)
    requires i < |draws| && a.payTo == b.payTo
    ensures FirstFree(m, a, draws, i) <==> FirstFree(m, b, draws, i)
  {
  }

  lemma DraftAddress(cfg: Config, job: Job, now: int)
    requires job.CreateInvoice?
    ensures Draft(cfg, job, now).payTo == job.payTo
  {
  }

  /** Whatever is not created leaves the store as it was. */
  lemma RejectedUnchanged(m: Mem, setup: Setup, job: Job, now: int, draws: seq<Draw>)
    requires job.CreateInvoice? && forall d :: d in draws ==> d.id !in m.invoices
    ensures var (m', r) := CreateNew(m, setup, job, now, draws); r.Rejected? ==> m' == m
  {
    hide NormalizeOnNetwork, Insert, MetadataFits, Draft, FirstFree, CapError;
    var to := Stored(setup, job.payTo);
    if to.Some? {
      InsertWorks(m, Draft(setup.limits, job.(payTo := to.value), now), draws);
    }
  }

  /** What is wrong with a request is found before anything else: the amount, then the
      address. */
  lemma RequestErrors(m: Mem, setup: Setup, job: Job, now: int, draws: seq<Draw>)
    requires job.CreateInvoice?
    ensures var r := CreateNew(m, setup, job, now, draws).1;
      && (r == Rejected(BadAmount) <==> job.amountNano <= 0)
      && (r == Rejected(BadAddress) <==>
            && job.amountNano > 0 && job.payTo != ""
            && (Parse(job.payTo).None? || (':' !in job.payTo && Parse(job.payTo).value.testnet != setup.testnet)))
      && (r == Rejected(NoAddress) <==> job.amountNano > 0 && job.payTo == "" && setup.defaultPayTo == "")
  {
    hide Parse, ToString, Insert, MetadataFits, Draft, FirstFree;
    if job.payTo != "" {
      NormalizePlain(job.payTo);
    }
    var to := Stored(setup, job.payTo);
    if to.Some? {
      InsertMeans(m, Draft(setup.limits, job.(payTo := to.value), now), draws);
    }
  }

  /** Of a good request the metadata is checked next, then the total cap, then that of
      the address. */
  lemma LimitErrors(m: Mem, setup: Setup, job: Job, now: int, draws: seq<Draw>, addr: string)
    requires job.CreateInvoice? && job.amountNano > 0 && PaysTo(setup, job.payTo, addr)
    ensures var r, cfg := CreateNew(m, setup, job, now, draws).1, setup.limits;
      var full := cfg.maxPending > 0 && |set id | id in m.invoices && m.invoices[id].status == Pending| >= cfg.maxPending;
      && (r == Rejected(BadMetadata) <==> !Small(job.metadata))
      && (r == Rejected(TooManyTotal) <==> Small(job.metadata) && full)
      && (r == Rejected(TooManyForAddress) <==> Small(job.metadata) && !full && !HasRoom(cfg, m.invoices, addr))
  {
    hide NormalizeOnNetwork, Insert, MetadataFits, Draft, PaysTo, FirstFree, Small;
    SmallIff(job.metadata);
    PaysToIff(setup, job.payTo, addr);
    RoomIff(setup.limits, m.invoices, addr);
    InsertMeans(m, Draft(setup.limits, job.(payTo := addr), now), draws);
  }

  /** When every invoice is indexed and nothing else, a memo is taken exactly when an
      invoice for the same address has it. */
  lemma TakenIff(m: Mem, draft: Invoice, d: Draw)
    requires IsIndex(m.memos, m.invoices) && '\0' !in draft.payTo
    requires forall id :: id in m.invoices ==> '\0' !in m.invoices[id].payTo
    ensures Taken(m, draft, d) <==> exists id :: id in m.invoices && m.invoices[id].payTo == draft.payTo && m.invoices[id].memo == d.memo
  {
    hide MemoKey;
    var key := MemoKey(draft.payTo, d.memo);
    if key in m.memos {
      var inv := m.invoices[m.memos[key]];
      MemoKeyInjective(inv.payTo, inv.memo, draft.payTo, d.memo);
    }
    if id :| id in m.invoices && m.invoices[id].payTo == draft.payTo && m.invoices[id].memo == d.memo {
      assert KeyOf(m.invoices[id]) == key;
    }
  }

  lemma SmallIff(metadata: map<string, string>)
    ensures MetadataFits(metadata) <==> Small(metadata)
  {
    assert EntryBytes(metadata) == map k | k in metadata :: Bytes(k) + Bytes(metadata[k]);
  }

  lemma RoomIff(cfg: Config, ledger: Ledger, addr: string)
    ensures CapError(cfg, ledger, addr).None? <==> HasRoom(cfg, ledger, addr)
  {
    assert PendingOf(ledger) == set id | id in ledger && ledger[id].status == Pending;
    assert PendingFor(ledger, addr) == set id | id in ledger && ledger[id].status == Pending && ledger[id].payTo == addr;
  }

  /** A new invoice is pending, for the amount asked, payable on our network, expires
      within the limit, and with no other creator keeps both caps. */
  lemma CreateNewMeans(m: Mem, setup: Setup, job: Job, now: int, draws: seq<Draw>)
    requires job.CreateInvoice? && Proper(setup.limits)
    requires forall d :: d in draws ==> d.id !in m.invoices
    requires CreateNew(m, setup, job, now, draws).1.Created?
    ensures var (m', r) := CreateNew(m, setup, job, now, draws);
      var inv, cfg := r.inv, setup.limits;
      && inv.status == Pending && inv.amountNano == job.amountNano > 0 && inv.createdAt == now
      && now < inv.expiresAt <= now + cfg.maxTTL && (0 < job.ttl <= cfg.maxTTL ==> inv.expiresAt == now + job.ttl)
      && (job.ttl <= 0 && cfg.defaultTTL <= cfg.maxTTL ==> inv.expiresAt == now + cfg.defaultTTL)
      && (job.ttl > cfg.maxTTL ==> inv.expiresAt == now + cfg.maxTTL)
      && PaysTo(setup, job.payTo, inv.payTo)
      && m'.invoices == m.invoices[inv.id := inv]
      && (cfg.maxPending > 0 ==> |PendingOf(m'.invoices)| <= cfg.maxPending)
      && (cfg.maxPendingPerAddr > 0 ==> |PendingFor(m'.invoices, inv.payTo)| <= cfg.maxPendingPerAddr)
  {
    hide NormalizeOnNetwork, KeyOf, PendingOf, PendingFor, Insert, MetadataFits, PaysTo;
    var addr := Stored(setup, job.payTo).value;
    PaysToIff(setup, job.payTo, addr);
    InsertMeans(m, Draft(setup.limits, job.(payTo := addr), now), draws);
    var inv := CreateNew(m, setup, job, now, draws).1.inv;
    PendingGrows(m.invoices, inv);
    PendingForGrows(m.invoices, inv);
  }

  /** The address of an invoice made for a caller's address names the same account, is
      spelt canonically, and cannot run into the memo. */
  lemma ReceiverMeans(setup: Setup, payTo: string)
    requires payTo != ""
    ensures Receiver(setup, payTo).Some? ==>
      var r := Receiver(setup, payTo).value;
      && Account(r) == Account(payTo) && Account(r).Some?
      && Normalize(payTo) == Some(r) && '\0' !in r
      && (':' !in payTo ==> Parse(r).Some? && Parse(r).value.testnet == setup.testnet)
  {
    hide Parse, ToString, Raw;
    NormalizeIdempotent(payTo);
    NormalizePlain(payTo);
    if ':' !in payTo && Receiver(setup, payTo).Some? {
      NetworkChecked(payTo, setup.testnet);
    }
  }

  /** A friendly form is accepted as it stands on its own network. */
  lemma FriendlyStored(setup: Setup, a: Address, bounceable: bool)
    requires a.Supported() && a.testnet == setup.testnet
    ensures Stored(setup, Friendly(a, bounceable)) == Some(Friendly(a, bounceable))
    ensures Account(Friendly(a, bounceable)) == Some(Raw(a)) && Accepts(setup, Friendly(a, bounceable))
  {
    hide Parse, Spell, FormatInt, HexEncode;
    var b := a.(bounceable := bounceable);
    ParseToString(b);
    SameSpelling(a, bounceable);
    SameAccount(a, b);
    assert Friendly(a, bounceable) == ToString(b);
  }

  /** A raw form is stored as a bounceable mainnet address, whatever the network. */
  lemma RawStored(setup: Setup, a: Address)
    requires a.Supported()
    ensures var b := Address(a.workchain, a.hash, true, false); Stored(setup, Raw(a)) == Some(Friendly(b, true))
  {
    hide Parse, Spell, FormatInt, HexEncode;
    RawRoundTrip(a);
    RawColon(a);
  }

  lemma RawColon(a: Address)
    requires a.Valid()
    ensures ':' in Raw(a)
  {
    hide HexEncode;
    assert Raw(a)[|FormatInt(a.workchain)|] == ':';
  }

  /** So the raw and the bounceable friendly form of an account are stored alike on
      mainnet, and apart on a testnet. */
  lemma RawAndFriendly(setup: Setup, a: Address)
    requires a.Supported() && a.testnet == setup.testnet
    ensures Stored(setup, Raw(a)) == Stored(setup, Friendly(a, true)) <==> !setup.testnet
  {
    hide Parse, Stored;
    var b, c := Address(a.workchain, a.hash, true, false), a.(bounceable := true);
    RawStored(setup, a);
    FriendlyStored(setup, a, true);
    SameSpelling(a, true);
    ParseToString(b);
    ParseToString(c);
    assert Friendly(b, true) == ToString(b) && Friendly(c, true) == ToString(c);
  }
}
