/** Money per account, where the store's uniqueness is per spelling of an address. */
module Accounts {
  import opened GoText
  import opened Store
  import opened Verifier
  import opened Protocol
  import opened Settlement
  import opened Preservation
  import opened Guarantees
  import opened Progress
  import opened Outcomes
  import opened Caps
  import opened Reach
  import opened Solo
  import opened Sums
  import opened TonAddr

  // ---- Memos kept apart ----

  predicate Names(payTo: string, account: string) {
    Account(payTo) == Some(account)
  }

  /** What has been credited to an account, under any spelling. */
  ghost function AccountCredits(ledger: Ledger, account: string): map<string, int> {
    map id | id in ledger && ledger[id].status == Paid && Names(ledger[id].payTo, account) :: ledger[id].amountNano
  }

  ghost predicate Conserved(s: State, account: string) {
    Total(AccountCredits(s.store.invoices, account)) <= Total(Receipts(s.chain, account))
  }

  /** No two paid invoices of the account share a memo. */
  ghost predicate PaidApart(ledger: Ledger, account: string) {
    var paid := AccountCredits(ledger, account);
    forall i, j :: i in paid && j in paid && i != j ==> ledger[i].memo != ledger[j].memo
  }

  /** No two invoices of the account share a memo. */
  ghost predicate Apart(ledger: Ledger, account: string) {
    forall i, j :: i in ledger && j in ledger && i != j && Names(ledger[i].payTo, account) && Names(ledger[j].payTo, account)
      ==> ledger[i].memo != ledger[j].memo
  }

  /** Memos kept apart, the account is never credited with more than it received. */
  lemma ApartConserved(s: State, account: string)
    requires Inv(s) && PaidApart(s.store.invoices, account)
    ensures Conserved(s, account)
  {
    hide Inv, Pays, Account, Total;
    var credits, receipts := AccountCredits(s.store.invoices, account), Receipts(s.chain, account);
    var to := map id | id in credits :: s.store.invoices[id].txHash;
    forall id | id in credits
      ensures to[id] in receipts && credits[id] <= receipts[to[id]]
      ensures s.chain[to[id]].message == s.store.invoices[id].memo
    {
      InvBacked(s, id);
      ItsId(s, id);
    }
    TotalCharged(credits, receipts, to);
  }

  lemma ItsId(s: State, id: string)
    requires Inv(s) && id in s.store.invoices
    ensures s.store.invoices[id].id == id
  {
    hide LocksOk, AllOnce, AllJustified, FiredOk, Indexed, ThreadsOk;
  }

  /** The memo of a new invoice is unused under every spelling of its account. */
  ghost predicate Unshared(ledger: Ledger, account: string, inv: Invoice) {
    Names(inv.payTo, account) ==>
      forall id :: id in ledger && Names(ledger[id].payTo, account) ==> ledger[id].memo != inv.memo
  }

  /** An insert keeps memos apart exactly when its memo is unshared: a test that can be
      made before it. */
  lemma InsertApart(m: Mem, inv: Invoice, account: string, ok: bool)
    requires inv.id !in m.invoices && Apart(m.invoices, account) && Create(m, inv, ok).1.Done?
    ensures Apart(Create(m, inv, ok).0.invoices, account) <==> Unshared(m.invoices, account, inv)
  {
    hide Names, KeyOf, Create;
    InsertEffect(m, inv, ok);
    var ledger' := Create(m, inv, ok).0.invoices;
    assert inv.id in ledger' && ledger'[inv.id] == inv;
    if Apart(ledger', account) {
      forall id | id in m.invoices && Names(m.invoices[id].payTo, account) && Names(inv.payTo, account)
        ensures m.invoices[id].memo != inv.memo
      {
        assert id in ledger' && ledger'[id] == m.invoices[id];
      }
    }
  }

  /** In every step of a run that inserts, the memo drawn is unshared. */
  ghost predicate DrawsUnshared(s: State, e: Event, account: string) {
    e.Go? && e.t in s.threads && s.threads[e.t].pc.Inserting? ==>
      Unshared(s.store.invoices, account, Drawn(s.threads[e.t].pc.draft, e.input.id, e.input.memo))
  }

  lemma ApartEvolves(a: Ledger, b: Ledger, account: string)
    requires Apart(a, account) && LedgerEvolves(a, b) && b.Keys == a.Keys
    ensures Apart(b, account)
  {
    hide Names;
    forall id | id in b ensures SameTerms(a[id], b[id]) {
      EvolvesKeepsTerms(a[id], b[id]);
    }
  }

  /** Only an insert adds an invoice. */
  lemma MoveKeys(m: Mem, op: Op, ok: bool)
    requires !op.CreateOp?
    ensures Apply(m, op, ok).0.invoices.Keys == m.invoices.Keys
  {
    hide Claim, Expire;
    MoveEffect(m, op, ok);
  }

  lemma StepApart(cfg: Config, s: State, e: Event, account: string)
    requires Inv(s) && Possible(s, e) && Apart(s.store.invoices, account) && DrawsUnshared(s, e, account)
    ensures Apart(Step(cfg, s, e).store.invoices, account)
  {
    hide Inv, Apart, Next, Apply, LedgerEvolves, Honest, Typed, Unshared;
    if e.Go? {
      StoreAfter(cfg, s, e.t, e.input);
      var op := OpOf(s.threads[e.t].pc, e.input);
      if op.Some? {
        OpApart(s.store, op.value, account, e.input.ok);
      }
    }
  }

  lemma OpApart(m: Mem, op: Op, account: string, ok: bool)
    requires Apart(m.invoices, account)
    requires op.CreateOp? ==> op.inv.id !in m.invoices && Unshared(m.invoices, account, op.inv)
    ensures Apart(Apply(m, op, ok).0.invoices, account)
  {
    hide Apart, LedgerEvolves, Create, Claim, Expire, Unshared;
    match op
    case CreateOp(inv) =>
      InsertEffect(m, inv, ok);
      if Create(m, inv, ok).1.Done? {
        InsertApart(m, inv, account, ok);
      }
    case _ =>
      MoveEvolves(m, op, ok);
      MoveKeys(m, op, ok);
      ApartEvolves(m.invoices, Apply(m, op, ok).0.invoices, account);
  }

  lemma RunStarts(cfg: Config, states: seq<State>, events: seq<Event>)
    requires IsRun(cfg, states, events)
    ensures |states| == |events| + 1 && exists durable :: states[0] == Init(durable)
  {
    hide Follows, Init;
  }

  lemma StartApart(s: State, account: string)
    requires exists durable :: s == Init(durable)
    ensures Apart(s.store.invoices, account)
  {
  }

  lemma StartSpelt(s: State, payTos: iset<string>)
    requires exists durable :: s == Init(durable)
    ensures Spelt(s, payTos)
  {
  }

  lemma {:induction false} UnsharedApart(cfg: Config, states: seq<State>, events: seq<Event>, i: nat, account: string)
    requires IsRun(cfg, states, events) && i < |states|
    requires forall k :: 0 <= k < i ==> DrawsUnshared(states[k], events[k], account)
    ensures Apart(states[i].store.invoices, account)
  {
    hide IsRun, Inv, Step, Possible, DrawsUnshared, Apart;
    RunStarts(cfg, states, events);
    if i == 0 {
      StartApart(states[0], account);
    } else {
      UnsharedApart(cfg, states, events, i - 1, account);
      RunInv(cfg, states, events, i - 1);
      OneStep(cfg, states, events, i - 1);
      StepApart(cfg, states[i - 1], events[i - 1], account);
    }
  }

  /** While no memo is drawn that another spelling of its account has used, the account
      is never credited with more than it received. */
  lemma UnsharedConserved(cfg: Config, states: seq<State>, events: seq<Event>, i: nat, account: string)
    requires IsRun(cfg, states, events) && i < |states|
    requires forall k :: 0 <= k < i ==> DrawsUnshared(states[k], events[k], account)
    ensures Conserved(states[i], account)
  {
    hide IsRun, Inv, DrawsUnshared, Conserved, Names;
    UnsharedApart(cfg, states, events, i, account);
    RunInv(cfg, states, events, i);
    ApartConserved(states[i], account);
  }

  // ---- Callers that keep to given addresses ----

  /** Every invoice, and every request for one, has one of these addresses. */
  ghost predicate Spelt(s: State, payTos: iset<string>) {
    && (forall id :: id in s.store.invoices ==> s.store.invoices[id].payTo in payTos)
    && (forall t :: t in s.threads ==> SpeltJob(s.threads[t].job, payTos))
  }

  ghost predicate SpeltJob(job: Job, payTos: iset<string>) {
    job.CreateInvoice? ==> job.payTo in payTos
  }

  lemma OpFrom(m: Mem, op: Op, ok: bool, id: string)
    requires (op.CreateOp? ==> op.inv.id !in m.invoices) && id in Apply(m, op, ok).0.invoices
    ensures var payTo := Apply(m, op, ok).0.invoices[id].payTo;
      (id in m.invoices && m.invoices[id].payTo == payTo) || (op.CreateOp? && op.inv.payTo == payTo)
  {
    hide Create, Claim, Expire, KeyOf;
    match op
    case CreateOp(inv) => InsertEffect(m, inv, ok);
    case _ => MoveEffect(m, op, ok);
  }

  /** The address of an invoice is that of an invoice before the step, or the one its
      creator was asked for. */
  lemma WhereFrom(cfg: Config, s: State, t: nat, x: Input, id: string)
    requires Inv(s) && Enabled(s, t, x) && id in Next(cfg, s, t, x).store.invoices
    ensures var payTo := Next(cfg, s, t, x).store.invoices[id].payTo;
      || (id in s.store.invoices && s.store.invoices[id].payTo == payTo)
      || (s.threads[t].job.CreateInvoice? && s.threads[t].job.payTo == payTo)
  {
    hide Inv, Next, Apply, Honest, Typed;
    StoreAfter(cfg, s, t, x);
    var op := OpOf(s.threads[t].pc, x);
    if op.Some? {
      OpFrom(s.store, op.value, x.ok, id);
      if op.value.CreateOp? {
        DraftAsAsked(s, t);
      }
    }
  }

  lemma DraftAsAsked(s: State, t: nat)
    requires Inv(s) && t in s.threads && s.threads[t].pc.Inserting?
    ensures s.threads[t].job.CreateInvoice? && s.threads[t].pc.draft.payTo == s.threads[t].job.payTo
  {
    hide LocksOk, AllOnce, AllJustified, FiredOk, Indexed, Distinct, ThreadsOk;
    AThread(s, t);
  }

  lemma StepSpelt(cfg: Config, s: State, e: Event, callers: Callers)
    requires Inv(s) && Possible(s, e) && Spelt(s, callers.payTos) && Obeys(e, callers)
    ensures Spelt(Step(cfg, s, e), callers.payTos)
  {
    hide Inv, Next, Honest;
    var s' := Step(cfg, s, e);
    if e.Go? {
      assert SpeltJob(s.threads[e.t].job, callers.payTos);
      forall id | id in s'.store.invoices ensures s'.store.invoices[id].payTo in callers.payTos {
        WhereFrom(cfg, s, e.t, e.input, id);
      }
    }
  }

  lemma {:induction false} RunSpelt(cfg: Config, states: seq<State>, events: seq<Event>, i: nat, callers: Callers)
    requires RunOf(cfg, states, events, callers) && i < |states|
    ensures Spelt(states[i], callers.payTos)
  {
    hide IsRun, Inv, Step, Possible, Obeys, Within, Spelt;
    RunStarts(cfg, states, events);
    if i == 0 {
      StartSpelt(states[0], callers.payTos);
    } else {
      RunSpelt(cfg, states, events, i - 1, callers);
      RunInv(cfg, states, events, i - 1);
      OneStep(cfg, states, events, i - 1);
      StepSpelt(cfg, states[i - 1], events[i - 1], callers);
    }
  }

  lemma ReachesSpelt(cfg: Config, s: State, callers: Callers)
    requires Reaches(cfg, s, callers)
    ensures Spelt(s, callers.payTos)
  {
    hide IsRun, Obeys, Within, Spelt;
    var states, events :|
      RunOf(cfg, states, events, callers) && |states| == |events| + 1 && states[|events|] == s;
    RunSpelt(cfg, states, events, |events|, callers);
  }

  /** At most one of the addresses names the account. */
  ghost predicate OneSpelling(account: string, payTos: iset<string>) {
    forall p, q :: p in payTos && q in payTos && Names(p, account) && Names(q, account) ==> p == q
  }

  lemma OneSpellingConserved(cfg: Config, s: State, account: string, callers: Callers)
    requires Reaches(cfg, s, callers) && OneSpelling(account, callers.payTos)
    ensures Conserved(s, account)
  {
    hide Inv, Names, Conserved, Reaches, Spelt, OneSpelling;
    ReachesInv(cfg, s, callers);
    ReachesSpelt(cfg, s, callers);
    SpeltApart(s, account, callers.payTos);
    ApartConserved(s, account);
  }

  lemma SpeltApart(s: State, account: string, payTos: iset<string>)
    requires Inv(s) && Spelt(s, payTos) && OneSpelling(account, payTos)
    ensures Apart(s.store.invoices, account)
  {
    hide Names, ThreadsOk, LocksOk, AllJustified, AllOnce, FiredOk, Indexed;
    var ledger := s.store.invoices;
    forall i, j | i in ledger && j in ledger && i != j && Names(ledger[i].payTo, account) && Names(ledger[j].payTo, account)
      ensures ledger[i].memo != ledger[j].memo
    {
      assert KeyOf(ledger[i]) != KeyOf(ledger[j]);
    }
  }

  // ---- One transaction, two invoices ----

  /** Any number of callers, for these addresses. */
  ghost function Anyone(payTos: iset<string>): Callers {
    Callers(payTos, Everywhere, None)
  }

  /** A call that runs alone reaches its end. */
  lemma {:induction false} DriveReaches(
    cfg: Config, s: State, t: nat, env: Env, draws: seq<Draw>, payTos: iset<string>)
    requires Reaches(cfg, s, Anyone(payTos)) && Live(s, t) && Runnable(cfg, s, t, env, draws)
    ensures Reaches(cfg, Drive(cfg, s, t, env, draws), Anyone(payTos))
    decreases Rank(s.threads[t].pc)
  {
    hide Reaches, Next, Enabled, Rank;
    if !s.threads[t].pc.Finished? {
      StillLive(cfg, s, t, env, draws);
      GoReaches(cfg, s, t, InputFor(s.threads[t].pc, env, draws), Anyone(payTos));
      DriveReaches(cfg, OneMore(cfg, s, t, env, draws), t, env, draws, payTos);
    }
  }

  /** A call of a process of its own, about to begin. */
  lemma Begin(cfg: Config, s: State, job: Job, payTos: iset<string>) returns (s': State, t: nat)
    requires Reaches(cfg, s, Anyone(payTos)) && SpeltJob(job, payTos)
    requires job.CreateInvoice? ==> job.payTo != "" && job.amountNano > 0
    ensures Reaches(cfg, s', Anyone(payTos)) && s'.store == s.store && s'.chain == s.chain
    ensures t in s'.threads && Live(s', t) && s'.threads[t].job == job && s'.threads[t].pc == StartPc(job) && s'.threads[t].started == 0
    ensures LocksFree(s', t)
  {
    hide Reaches;
    t := Above(s.threads.Keys);
    var p := Above(s.tables.Keys);
    var e := Spawn(t, p, job, 0);
    assert t !in s.threads && p !in s.tables;
    ReachesNext(cfg, s, e, Anyone(payTos));
    s' := Step(cfg, s, e);
  }

  /** A pending invoice is paid on an entry that pays it. */
  lemma CreditOne(cfg: Config, s: State, payTos: iset<string>, id: string, e: Entry) returns (s': State)
    requires Reaches(cfg, s, Anyone(payTos)) && IsPending(s.store.invoices, id)
    requires var inv := s.store.invoices[id]; Witness(s.chain, inv, e) && inv.payTo != "" && inv.memo != ""
    ensures Reaches(cfg, s', Anyone(payTos)) && s'.chain == s.chain
    ensures s'.store.invoices == s.store.invoices[id := Settled(s.store.invoices[id], e.hash, 0)]
    ensures s'.store.memos == s.store.memos && s'.store.durable == s.store.durable
  {
    hide Reaches, Inv, Qualifies, Reports, Judge, LocksFree, Live, StartPc, PaidBy, Unmatched;
    var inv, env := s.store.invoices[id], Env(Some([e]), 0, true);
    ReachesInv(cfg, s, Anyone(payTos));
    ItsId(s, id);
    var s1, t := Begin(cfg, s, CheckStatus(id), payTos);
    ReachesInv(cfg, s1, Anyone(payTos));
    CheckStarts(s1, t, id);
    var hooked := s1.threads[t].proc in cfg.hooked;
    SoloCheck(cfg, s1, t, env, []);
    EndsAt(cfg, s1, t, env, [], Check(s1.store, id, hooked, env));
    DriveReaches(cfg, s1, t, env, [], payTos);
    s' := Drive(cfg, s1, t, env, []);
    OneEntry(inv, e);
    CheckMeans(s1.store, id, hooked, env);
  }

  lemma OneEntry(inv: Invoice, e: Entry)
    requires Pays(e, inv)
    ensures !Unmatched(inv, [e]) && forall hash :: PaidBy(inv, [e], hash) ==> hash == e.hash
  {
    hide Pays, Qualifies;
    PaysIff(e, inv);
    assert Qualifies([e][0], inv);
  }

  lemma CheckStarts(s: State, t: nat, id: string)
    requires Live(s, t) && s.threads[t].job == CheckStatus(id) && s.threads[t].pc == StartPc(s.threads[t].job)
    ensures s.threads[t].pc == Reading
  {
  }

  lemma EndsAt(cfg: Config, s: State, t: nat, env: Env, draws: seq<Draw>, r: Checked)
    requires Live(s, t) && Ends(cfg, s, t, env, draws, r)
    ensures Runnable(cfg, s, t, env, draws)
    ensures Drive(cfg, s, t, env, draws).store == r.store && Drive(cfg, s, t, env, draws).chain == s.chain
  {
  }

  /** A plain report of a transfer: no time, no destination. */
  function Transfer(hash: string, value: nat, memo: string): Entry {
    Entry(hash, 0, "", FormatInt(value), memo)
  }

  lemma NoAddress()
    ensures Account("") == None
  {
  }

  lemma TransferPays(chain: Chain, inv: Invoice, hash: string, value: nat, account: string)
    requires hash in chain && chain[hash] == Tx(account, 0, value, inv.memo)
    requires Names(inv.payTo, account) && inv.amountNano <= value < INT64_LIMIT
    ensures Witness(chain, inv, Transfer(hash, value, inv.memo)) && inv.payTo != ""
  {
    hide Account, ParseInt, FormatInt;
    NoAddress();
    IntRoundTrip(value, INT64_LIMIT);
  }

  /** Two paid invoices with one hash. */
  predicate BothPaid(ledger: Ledger, i: string, j: string, hash: string) {
    && i in ledger && j in ledger && i != j
    && ledger[i].status == Paid && ledger[j].status == Paid && ledger[i].txHash == ledger[j].txHash == hash
  }

  function Larger(a: int, b: int): int {
    if a < b then b else a
  }

  /** A transfer to an account enters the chain. */
  lemma MineOne(cfg: Config, s: State, payTos: iset<string>, hash: string, tx: Tx) returns (s': State)
    requires Reaches(cfg, s, Anyone(payTos)) && hash !in s.chain
    ensures Reaches(cfg, s', Anyone(payTos)) && s' == s.(chain := s.chain[hash := tx])
  {
    hide Reaches;
    ReachesNext(cfg, s, Mine(hash, tx), Anyone(payTos));
    s' := Step(cfg, s, Mine(hash, tx));
  }

  /** Wherever two pending invoices of an account share a memo, one transaction worth
      the larger can pay both. */
  lemma DoubleCredit(cfg: Config, s: State, account: string, payTos: iset<string>, i: string, j: string, hash: string)
    returns (s': State)
    requires Reaches(cfg, s, Anyone(payTos)) && IsPending(s.store.invoices, i) && IsPending(s.store.invoices, j) && i != j
    requires var a, b := s.store.invoices[i], s.store.invoices[j];
      && Names(a.payTo, account) && Names(b.payTo, account) && a.memo == b.memo != ""
      && 0 < a.amountNano < INT64_LIMIT && 0 < b.amountNano < INT64_LIMIT
    requires hash !in s.chain
    ensures Reaches(cfg, s', Anyone(payTos))
    ensures var a, b := s.store.invoices[i], s.store.invoices[j];
      && s'.chain == s.chain[hash := Tx(account, 0, Larger(a.amountNano, b.amountNano), a.memo)]
      && s'.store.invoices == s.store.invoices[i := Settled(a, hash, 0)][j := Settled(b, hash, 0)]
  {
    hide Reaches, Names, Witness, Transfer;
    var a, b := s.store.invoices[i], s.store.invoices[j];
    var value := Larger(a.amountNano, b.amountNano);
    var e := Transfer(hash, value, a.memo);
    TransferHash(hash, value, a.memo);
    var s1 := MineOne(cfg, s, payTos, hash, Tx(account, 0, value, a.memo));
    TransferPays(s1.chain, a, hash, value, account);
    var s2 := CreditOne(cfg, s1, payTos, i, e);
    TransferPays(s2.chain, b, hash, value, account);
    s' := CreditOne(cfg, s2, payTos, j, e);
  }

  lemma TransferHash(hash: string, value: nat, memo: string)
    ensures Transfer(hash, value, memo).hash == hash
  {
  }

  /** With nothing pending, any caps leave room for one invoice, and its memo can be any
      that is free. */
  lemma CreateOne(cfg: Config, s: State, payTos: iset<string>, payTo: string, amount: int, memo: string)
    returns (s': State, inv: Invoice)
    requires Reaches(cfg, s, Anyone(payTos)) && payTo in payTos && payTo != "" && amount > 0
    requires PendingOf(s.store.invoices) == {} && MemoKey(payTo, memo) !in s.store.memos
    ensures Reaches(cfg, s', Anyone(payTos)) && s'.chain == s.chain
    ensures inv.id !in s.store.invoices && inv.payTo == payTo && inv.memo == memo && inv.amountNano == amount && inv.status == Pending
    ensures s'.store.invoices == s.store.invoices[inv.id := inv]
    ensures s'.store.memos == s.store.memos[MemoKey(payTo, memo) := inv.id]
  {
    hide Reaches, MemoKey, Longer, LocksFree, Insert, PendingOf;
    var job, env := CreateInvoice(payTo, amount, 0, map[]), Env(None, 0, true);
    var id := Longer(s.store.invoices.Keys);
    assert id !in s.store.invoices;
    var draws := [Draw(id, memo, true), Draw(id, memo, true), Draw(id, memo, true), Draw(id, memo, true), Draw(id, memo, true)];
    inv := With(Draft(cfg, job, 0), draws[0]);
    var s1, t := Begin(cfg, s, job, payTos);
    SoloCreate(cfg, s1, t, env, draws);
    InsertFirst(s1.store, Draft(cfg, job, 0), draws);
    NothingPending(cfg, s1.store.invoices, payTo);
    EndsAt(cfg, s1, t, env, draws, Inserted(Insert(s1.store, Draft(cfg, job, 0), draws)));
    DriveReaches(cfg, s1, t, env, draws, payTos);
    s' := Drive(cfg, s1, t, env, draws);
  }

  lemma NothingPending(cfg: Config, ledger: Ledger, payTo: string)
    requires PendingOf(ledger) == {}
    ensures CapError(cfg, ledger, payTo) == None
  {
    assert PendingFor(ledger, payTo) <= PendingOf(ledger);
  }

  /** Under one memo, keys differ as addresses do, whatever these hold. */
  lemma KeysApart(p: string, q: string, memo: string)
    ensures MemoKey(p, memo) == MemoKey(q, memo) <==> p == q
  {
    var k, l := MemoKey(p, memo), MemoKey(q, memo);
    if k == l {
      assert |p| == |q|;
      assert p == k[..|p|] && q == l[..|q|];
    }
  }

  /** The first half: an invoice under one address, paid. */
  lemma FirstCredited(cfg: Config, payTos: iset<string>, p: string, account: string, x: int, value: nat)
    returns (s: State, c: Invoice)
    requires p in payTos && Names(p, account) && 0 < x <= value < INT64_LIMIT
    ensures Reaches(cfg, s, Anyone(payTos)) && s.store.invoices == map[c.id := c] && s.chain == map["h" := Tx(account, 0, value, "m")]
    ensures c.status == Paid && c.txHash == "h" && c.payTo == p && c.amountNano == x
    ensures s.store.memos == map[MemoKey(p, "m") := c.id]
  {
    hide Reaches, Names, MemoKey, Witness, Transfer;
    TransferHash("h", value, "m");
    NamesNonempty(p, account);
    StartReaches(cfg, Anyone(payTos));
    var s1, a := CreateOne(cfg, Init(false), payTos, p, x, "m");
    var s2 := MineOne(cfg, s1, payTos, "h", Tx(account, 0, value, "m"));
    TransferPays(s2.chain, a, "h", value, account);
    s := CreditOne(cfg, s2, payTos, a.id, Transfer("h", value, "m"));
    c := Settled(a, "h", 0);
  }

  /** Two addresses of an account: an invoice under each, one memo, one transaction, and
      the account is credited with more than it received, whatever the caps. */
  lemma OverCredited(cfg: Config, p: string, q: string, account: string, x: int, y: int) returns (s: State)
    requires p != q && Names(p, account) && Names(q, account) && 0 < x < INT64_LIMIT && 0 < y < INT64_LIMIT
    ensures Reaches(cfg, s, Anyone(iset{p, q})) && !Conserved(s, account)
    ensures exists i, j, hash :: BothPaid(s.store.invoices, i, j, hash)
  {
    hide Reaches, Names, Conserved, MemoKey, Witness, Transfer;
    var payTos, value := iset{p, q}, Larger(x, y);
    var s1, c := FirstCredited(cfg, payTos, p, account, x, value);
    NamesNonempty(q, account);
    KeysApart(p, q, "m");
    var s2, b := CreateOne(cfg, s1, payTos, q, y, "m");
    TransferPays(s2.chain, b, "h", value, account);
    TransferHash("h", value, "m");
    s := CreditOne(cfg, s2, payTos, b.id, Transfer("h", value, "m"));
    var d := Settled(b, "h", 0);
    assert s.store.invoices == map[c.id := c, d.id := d];
    TwicePaid(s, account, c, d, value);
    assert BothPaid(s.store.invoices, c.id, d.id, "h");
  }

  lemma NamesNonempty(p: string, account: string)
    requires Names(p, account)
    ensures p != ""
  {
    NoAddress();
  }

  lemma TwicePaid(s: State, account: string, c: Invoice, d: Invoice, value: nat)
    requires c.id != d.id && s.store.invoices == map[c.id := c, d.id := d] && c.status == Paid && d.status == Paid
    requires Names(c.payTo, account) && Names(d.payTo, account) && c.amountNano + d.amountNano > value
    requires s.chain == map["h" := Tx(account, 0, value, "m")]
    ensures !Conserved(s, account)
  {
    hide Names;
    var credits, receipts := AccountCredits(s.store.invoices, account), Receipts(s.chain, account);
    assert credits == map[c.id := c.amountNano, d.id := d.amountNano];
    assert receipts == map["h" := value];
    TotalRemove(credits, c.id);
    TotalRemove(credits - {c.id}, d.id);
    TotalRemove(receipts, "h");
    assert credits - {c.id} - {d.id} == map[] && receipts - {"h"} == map[];
  }

  /** Every supported address has two spellings that the service of its network accepts
      as they stand, and with them the account can be credited with more than it
      received, whatever the caps and the amounts. */
  lemma EveryAddressOverCredited(setup: Setup, a: Address, x: int, y: int)
    requires a.Supported() && a.testnet == setup.testnet && 0 < x < INT64_LIMIT && 0 < y < INT64_LIMIT
    ensures var p, q := Friendly(a, true), Friendly(a, false);
      && p != q && Stored(setup, p) == Some(p) && Stored(setup, q) == Some(q)
      && exists s :: Reaches(setup.limits, s, Anyone(iset{p, q})) && !Conserved(s, Raw(a))
           && exists i, j, hash :: BothPaid(s.store.invoices, i, j, hash)
  {
    hide Reaches, Conserved, Friendly, Stored, Account, BothPaid, Accepts;
    FriendlyStored(setup, a, true);
    FriendlyStored(setup, a, false);
    FriendlyApart(a);
    var s := OverCredited(setup.limits, Friendly(a, true), Friendly(a, false), Raw(a), x, y);
  }

  lemma FriendlyApart(a: Address)
    requires a.Supported()
    ensures Friendly(a, true) != Friendly(a, false)
  {
    hide Pays, Account, Friendly, MemoKey;
    var inv := Invoice("", Friendly(a, true), "", 0, "", Pending, "", map[], 0, 0, 0);
    SpellingsKeptApart(a, inv, inv.(payTo := Friendly(a, false)), Transfer("", 0, ""));
  }

  // ---- Exactly when an account is safe ----

  /** What invoices are stored under when callers ask for the account by these inputs
      only, and for other accounts as they like. */
  ghost function StoredFor(setup: Setup, account: string, inputs: set<string>): iset<string> {
    iset p | Names(p, account) ==> exists input :: input in inputs && Stored(setup, input) == Some(p)
  }

  /** At most one of the addresses that these inputs are stored under names the
      account. */
  ghost predicate StoredAlike(setup: Setup, account: string, inputs: set<string>) {
    forall p, q :: p in inputs && q in inputs && StoresAs(setup, p, account) && StoresAs(setup, q, account)
      ==> Stored(setup, p) == Stored(setup, q)
  }

  predicate StoresAs(setup: Setup, input: string, account: string) {
    Stored(setup, input).Some? && Names(Stored(setup, input).value, account)
  }

  lemma AlikeIsOne(setup: Setup, account: string, inputs: set<string>)
    ensures StoredAlike(setup, account, inputs) <==> OneSpelling(account, StoredFor(setup, account, inputs))
  {
    hide Stored, Names;
    var payTos := StoredFor(setup, account, inputs);
    if StoredAlike(setup, account, inputs) {
      forall p, q | p in payTos && q in payTos && Names(p, account) && Names(q, account) ensures p == q {
        var i :| i in inputs && Stored(setup, i) == Some(p);
        var j :| j in inputs && Stored(setup, j) == Some(q);
        assert StoresAs(setup, i, account) && StoresAs(setup, j, account);
      }
    }
    if OneSpelling(account, payTos) {
      forall p, q | p in inputs && q in inputs && StoresAs(setup, p, account) && StoresAs(setup, q, account)
        ensures Stored(setup, p) == Stored(setup, q)
      {
        assert Stored(setup, p).value in payTos && Stored(setup, q).value in payTos;
      }
    }
  }

  /** Conservation per account holds in every run of callers that ask for the account by
      given inputs exactly when the service stores all of these alike. */
  lemma ConservedIffStoredAlike(setup: Setup, account: string, inputs: set<string>)
    ensures (forall s :: Reaches(setup.limits, s, Anyone(StoredFor(setup, account, inputs))) ==> Conserved(s, account))
      <==> StoredAlike(setup, account, inputs)
  {
    hide Reaches, Stored, Names, Conserved, StoredAlike, StoredFor;
    var callers := Anyone(StoredFor(setup, account, inputs));
    AlikeIsOne(setup, account, inputs);
    if StoredAlike(setup, account, inputs) {
      forall s | Reaches(setup.limits, s, callers) ensures Conserved(s, account) {
        OneSpellingConserved(setup.limits, s, account, callers);
      }
    } else {
      var p, q :| p in callers.payTos && q in callers.payTos && Names(p, account) && Names(q, account) && p != q;
      var s := OverCredited(setup.limits, p, q, account, 1, 1);
      ReachesMore(setup.limits, s, Anyone(iset{p, q}), callers);
    }
  }
}
