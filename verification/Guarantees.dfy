/** What holds over every run of the settlement protocol. */
module Guarantees {
  import opened GoText
  import opened Store
  import opened Verifier
  import opened Protocol
  import opened Settlement
  import opened Preservation
  import opened Sums

  lemma OneStep(cfg: Config, states: seq<State>, events: seq<Event>, i: nat)
    requires IsRun(cfg, states, events) && i < |events|
    ensures Possible(states[i], events[i]) && states[i + 1] == Step(cfg, states[i], events[i])
  {
    hide Possible, Step;
    assert Follows(cfg, states[i], events[i], states[i + 1]);
  }

  lemma RunExtends(cfg: Config, states: seq<State>, events: seq<Event>, e: Event, s: State)
    requires IsRun(cfg, states, events) && Follows(cfg, states[|events|], e, s)
    ensures IsRun(cfg, states + [s], events + [e])
  {
    hide Follows, Init;
    forall i | 0 <= i < |events + [e]| ensures Follows(cfg, (states + [s])[i], (events + [e])[i], (states + [s])[i + 1]) {
      assert i < |events| ==> Follows(cfg, states[i], events[i], states[i + 1]);
    }
  }

  lemma {:induction false} RunInv(cfg: Config, states: seq<State>, events: seq<Event>, i: nat)
    requires IsRun(cfg, states, events) && i < |states|
    ensures Inv(states[i])
  {
    hide Inv, Step, Possible, Follows;
    if i == 0 {
      var durable :| states[0] == Init(durable);
      InitInv(durable);
    } else {
      RunInv(cfg, states, events, i - 1);
      OneStep(cfg, states, events, i - 1);
      StepKeeps(cfg, states[i - 1], events[i - 1]);
    }
  }

  // ---- Lifecycle ----

  lemma StoreUntouched(cfg: Config, s: State, t: nat, x: Input)
    requires t in s.threads && Typed(s.threads[t])
    requires var pc := s.threads[t].pc; !pc.Finished? && !pc.Claiming? && !pc.Expiring? && !pc.Inserting?
    ensures Next(cfg, s, t, x).store == s.store
  {
    hide LocalNext, Typed;
  }

  lemma MoveEvolves(m: Mem, op: Op, ok: bool)
    requires op.CreateOp? ==> op.inv.id !in m.invoices
    ensures LedgerEvolves(m.invoices, Apply(m, op, ok).0.invoices)
  {
    hide LedgerEvolves, Create, Claim, Expire;
    var ledger := m.invoices;
    LedgerSame(ledger);
    match op
    case CreateOp(inv) =>
      InsertEffect(m, inv, ok);
      LedgerMoves(ledger, inv.id, inv);
    case _ =>
      MoveEffect(m, op, ok);
      if IsPending(ledger, op.id) {
        LedgerMoves(ledger, op.id, Moved(ledger[op.id], op));
      }
  }

  /** What a step asks of the store. */
  function OpOf(pc: Pc, x: Input): Option<Op> {
    if pc.Claiming? then Some(ClaimOp(pc.inv.id, pc.tx.hash, pc.at))
    else if pc.Expiring? then Some(ExpireOp(pc.inv.id))
    else if pc.Inserting? then Some(CreateOp(Drawn(pc.draft, x.id, x.memo)))
    else None
  }

  lemma ClaimStepStore(cfg: Config, s: State, t: nat, ok: bool)
    requires t in s.threads && s.threads[t].pc.Claiming?
    ensures var pc := s.threads[t].pc;
      ClaimStep(cfg, s, t, ok).store == Claim(s.store, pc.inv.id, pc.tx.hash, pc.at, ok).0
  {
    hide Claim, OnlyMoved;
  }

  lemma ExpireStepStore(s: State, t: nat, ok: bool)
    requires t in s.threads && s.threads[t].pc.Expiring?
    ensures ExpireStep(s, t, ok).store == Expire(s.store, s.threads[t].pc.inv.id, ok).0
  {
    hide Expire, OnlyMoved;
  }

  lemma InsertStepStore(s: State, t: nat, x: Input)
    requires t in s.threads && s.threads[t].pc.Inserting?
    ensures InsertStep(s, t, x).store == Create(s.store, Drawn(s.threads[t].pc.draft, x.id, x.memo), x.ok).0
  {
    hide Create, OnlyMoved;
  }

  lemma StoreAfter(cfg: Config, s: State, t: nat, x: Input)
    requires t in s.threads && Typed(s.threads[t]) && !s.threads[t].pc.Finished?
    ensures var op := OpOf(s.threads[t].pc, x);
      Next(cfg, s, t, x).store == if op.None? then s.store else Apply(s.store, op.value, x.ok).0
  {
    hide ClaimStep, ExpireStep, InsertStep, LockStep, LocalNext, OnlyMoved, Claim, Expire, Create;
    var pc := s.threads[t].pc;
    if pc.Claiming? {
      ClaimStepStore(cfg, s, t, x.ok);
    } else if pc.Expiring? {
      ExpireStepStore(s, t, x.ok);
    } else if pc.Inserting? {
      InsertStepStore(s, t, x);
    } else {
      StoreUntouched(cfg, s, t, x);
    }
  }

  lemma GoEvolves(cfg: Config, s: State, t: nat, x: Input)
    requires Inv(s) && Enabled(s, t, x)
    ensures LedgerEvolves(s.store.invoices, Next(cfg, s, t, x).store.invoices)
  {
    hide Inv, LedgerEvolves, Next, Apply, Honest, Typed;
    StoreAfter(cfg, s, t, x);
    var op := OpOf(s.threads[t].pc, x);
    if op.None? {
      LedgerSame(s.store.invoices);
    } else {
      MoveEvolves(s.store, op.value, x.ok);
    }
  }

  lemma LedgerSame(ledger: Ledger)
    ensures LedgerEvolves(ledger, ledger)
  {
  }

  lemma StepEvolves(cfg: Config, s: State, e: Event)
    requires Inv(s) && Possible(s, e)
    ensures LedgerEvolves(s.store.invoices, Step(cfg, s, e).store.invoices)
    ensures Grows(s.chain, Step(cfg, s, e).chain)
  {
    hide Inv, Enabled, LedgerEvolves, LocalNext, Claim, Expire, Create;
    LedgerSame(s.store.invoices);
    if e.Go? {
      GoEvolves(cfg, s, e.t, e.input);
    }
  }

  /** Between any two moments of a run every invoice keeps its terms, and either is
      untouched or has gone once from pending to paid or from pending to expired. */
  lemma {:induction false} Lifecycle(cfg: Config, states: seq<State>, events: seq<Event>, i: nat, j: nat)
    requires IsRun(cfg, states, events) && i <= j < |states|
    ensures LedgerEvolves(states[i].store.invoices, states[j].store.invoices)
    ensures Grows(states[i].chain, states[j].chain)
    decreases j
  {
    hide Inv, Step, Possible, Follows, LedgerEvolves;
    if i == j {
      LedgerSame(states[i].store.invoices);
    } else {
      Lifecycle(cfg, states, events, i, j - 1);
      RunInv(cfg, states, events, j - 1);
      OneStep(cfg, states, events, j - 1);
      StepEvolves(cfg, states[j - 1], events[j - 1]);
      LedgerEvolvesTransitive(states[i].store.invoices, states[j - 1].store.invoices, states[j].store.invoices);
    }
  }

  lemma TerminalForever(cfg: Config, states: seq<State>, events: seq<Event>, i: nat, j: nat, id: string)
    requires IsRun(cfg, states, events) && i <= j < |states|
    requires id in states[i].store.invoices
    ensures id in states[j].store.invoices
    ensures SameTerms(states[i].store.invoices[id], states[j].store.invoices[id])
    ensures states[i].store.invoices[id].status != Pending ==> states[j].store.invoices[id] == states[i].store.invoices[id]
  {
    hide IsRun;
    Lifecycle(cfg, states, events, i, j);
    EvolvesKeepsTerms(states[i].store.invoices[id], states[j].store.invoices[id]);
  }

  // ---- Settlement soundness ----

  /** What backs an invoice that is no longer pending. A paid one was credited on an
      entry with its hash that qualifies, and so on a transaction of the chain worth its
      price and not too old. An expired one had a deadline, and was checked by a clock
      past it after a request that failed or was answered without a qualifying entry. */
  ghost predicate Backed(s: State, inv: Invoice) {
    && (inv.status == Paid ==>
          && inv.id in s.why && s.why[inv.id].Credit? && s.why[inv.id].entry.hash == inv.txHash
          && Qualifies(s.why[inv.id].entry, inv) && Worth(s.chain, inv, s.why[inv.id].entry))
    && (inv.status == Expired ==>
          && inv.id in s.why && s.why[inv.id].Lapse? && LapsedOn(s.chain, inv, s.why[inv.id].response, s.why[inv.id].at))
  }

  ghost predicate LapsedOn(chain: Chain, inv: Invoice, response: Response, at: int) {
    && inv.expiresAt != -62_135_596_800_000_000_000 && at > inv.expiresAt
    && Honest(chain, inv.payTo, response)
    && (response.Some? && inv.payTo != "" && inv.memo != "" ==> Unmatched(inv, response.value))
  }

  lemma LapseMeans(chain: Chain, inv: Invoice, lapse: Evidence)
    requires LapseOk(chain, inv, lapse)
    ensures lapse.Lapse? && LapsedOn(chain, inv, lapse.response, lapse.at)
  {
    hide Judge, Honest, Unmatched, PaidBy;
    JudgeMeans(inv, lapse.response);
  }

  lemma InvBacked(s: State, id: string)
    requires Inv(s) && id in s.store.invoices
    ensures Backed(s, s.store.invoices[id])
  {
    hide Pays, Qualifies, Reports, Worth, LapseOk, LapsedOn, LocksOk, ThreadsOk, AllOnce, FiredOk, Indexed, KeyOf;
    var inv := s.store.invoices[id];
    assert Justified(s.chain, s.why, id, inv);
    if inv.status == Paid {
      WitnessPays(s.chain, inv, s.why[id].entry);
      PaysIff(s.why[id].entry, inv);
    } else if inv.status == Expired {
      assert LapseOk(s.chain, inv, s.why[id]);
      LapseMeans(s.chain, inv, s.why[id]);
    }
  }

  lemma Soundness(cfg: Config, states: seq<State>, events: seq<Event>, i: nat, id: string)
    requires IsRun(cfg, states, events) && i < |states| && id in states[i].store.invoices
    ensures Backed(states[i], states[i].store.invoices[id])
  {
    hide IsRun, Inv, Backed;
    RunInv(cfg, states, events, i);
    InvBacked(states[i], id);
  }

  /** What a check returns is the stored invoice, if terminal; an error comes only
      with a pending one. */
  lemma RepliesAreStored(cfg: Config, states: seq<State>, events: seq<Event>, i: nat, t: nat)
    requires IsRun(cfg, states, events) && i < |states|
    requires t in states[i].threads && states[i].threads[t].job.CheckStatus? && states[i].threads[t].pc.Finished?
    ensures var ledger, id, reply := states[i].store.invoices, states[i].threads[t].job.id, states[i].threads[t].pc.reply;
      && (reply.Replied? ==> id in ledger && SameTerms(reply.inv, ledger[id]))
      && (reply.Replied? && reply.inv.status != Pending ==> reply.inv == ledger[id])
      && (reply.StoreError? ==> reply.inv.status == Pending)
  {
    hide IsRun, LocksOk, AllOnce, AllJustified;
    RunInv(cfg, states, events, i);
    AThread(states[i], t);
    var reply, ledger, id := states[i].threads[t].pc.reply, states[i].store.invoices, states[i].threads[t].job.id;
    if reply.Replied? {
      EvolvesKeepsTerms(reply.inv, ledger[id]);
    }
  }

  /** A check that answers without an error leaves no invoice pending whose deadline had
      passed when it began. */
  lemma OverdueEnds(cfg: Config, states: seq<State>, events: seq<Event>, i: nat, t: nat)
    requires IsRun(cfg, states, events) && i < |states|
    requires t in states[i].threads && states[i].threads[t].job.CheckStatus? && states[i].threads[t].pc.Finished?
    requires states[i].threads[t].pc.reply.Replied?
    ensures var th, ledger := states[i].threads[t], states[i].store.invoices;
      && th.job.id in ledger
      && var inv := ledger[th.job.id];
         inv.expiresAt != -62_135_596_800_000_000_000 && th.started > inv.expiresAt ==> inv.status != Pending
  {
    hide IsRun, LocksOk, AllOnce, AllJustified;
    RunInv(cfg, states, events, i);
    AThread(states[i], t);
  }

  // ---- Payment completeness ----

  /** Past a verdict that credits: on the way into the lock, inside it, or done. */
  predicate PastCredit(pc: Pc) {
    pc.WantTable? || pc.InTable? || pc.WantKey? || pc.Rereading? || pc.Settling? || pc.Claiming? || pc.LostClaim?
    || pc.Firing? || pc.Unlocking?
  }

  /** A check with a verdict that credits is still on its way, or has answered with an
      error, or has left its invoice settled or expired. */
  ghost predicate Completes(s: State, t: nat, id: string) {
    && t in s.threads && s.threads[t].job == CheckStatus(id)
    && var pc := s.threads[t].pc;
       PastCredit(pc) || (pc.Finished? && (pc.reply.Replied? ==> id in s.store.invoices && !IsPending(s.store.invoices, id)))
  }

  lemma LocalOnward(cfg: Config, m: Mem, th: Thread, x: Input)
    requires IsLocal(th.pc) && Typed(th) && PastCredit(th.pc)
    ensures PastCredit(LocalNext(cfg, m, th, x))
  {
    hide Get, Judge, Draft, OverCap, Overdue;
  }

  lemma ClaimOnward(cfg: Config, s: State, t: nat, ok: bool)
    requires t in s.threads && s.threads[t].pc.Claiming?
    ensures PastCredit(ClaimStep(cfg, s, t, ok).threads[t].pc)
  {
    hide Claim, OnlyMoved;
  }

  lemma LockOnward(s: State, t: nat)
    requires t in s.threads && Typed(s.threads[t]) && IsLockStep(s.threads[t].pc) && !s.threads[t].pc.Unlocking?
    ensures PastCredit(LockStep(s, t).threads[t].pc)
  {
    hide TableOf, OnlyMoved;
  }

  lemma GoOnward(cfg: Config, s: State, t: nat, x: Input)
    requires t in s.threads && Typed(s.threads[t]) && PastCredit(s.threads[t].pc) && !s.threads[t].pc.Unlocking?
    ensures PastCredit(Next(cfg, s, t, x).threads[t].pc)
  {
    hide LocalNext, ClaimStep, LockStep, ExpireStep, InsertStep, OnlyMoved;
    var pc := s.threads[t].pc;
    if IsLocal(pc) {
      LocalOnward(cfg, s.store, s.threads[t], x);
    } else if pc.Claiming? {
      ClaimOnward(cfg, s, t, x.ok);
    } else if !pc.Firing? {
      LockOnward(s, t);
    }
  }

  lemma GoAnswers(cfg: Config, s: State, t: nat, x: Input, id: string)
    requires Inv(s) && t in s.threads && s.threads[t].job == CheckStatus(id) && s.threads[t].pc.Unlocking?
    requires Typed(s.threads[t])
    ensures Completes(Next(cfg, s, t, x), t, id)
  {
    hide LocksOk, AllOnce, AllJustified, FiredOk, Indexed, Distinct, ThreadsOk, TableOf;
    AThread(s, t);
  }

  lemma GoCompletes(cfg: Config, s: State, t: nat, x: Input, id: string)
    requires Inv(s) && Enabled(s, t, x) && Completes(s, t, id)
    ensures Completes(Next(cfg, s, t, x), t, id)
  {
    hide Inv, Next, Honest, PastCredit;
    if s.threads[t].pc.Unlocking? {
      GoAnswers(cfg, s, t, x, id);
    } else {
      GoOnward(cfg, s, t, x);
    }
  }

  lemma StepCompletes(cfg: Config, s: State, e: Event, t: nat, id: string)
    requires Inv(s) && Possible(s, e) && Completes(s, t, id) && e != Crash(s.threads[t].proc)
    ensures Completes(Step(cfg, s, e), t, id)
    ensures Step(cfg, s, e).threads[t].proc == s.threads[t].proc
  {
    hide Inv, Next, Honest, LedgerEvolves, PastCredit;
    StepEvolves(cfg, s, e);
    if id in s.store.invoices && !IsPending(s.store.invoices, id) {
      TerminalStays(s.store.invoices, Step(cfg, s, e).store.invoices, id);
    }
    if e.Go? && e.t == t {
      GoCompletes(cfg, s, t, e.input, id);
    }
  }

  /** A check that has seen an entry that pays, and answers without an error, leaves its
      invoice no longer pending, unless its process crashes first. */
  lemma {:induction false} CreditedSettles(cfg: Config, states: seq<State>, events: seq<Event>, i: nat, j: nat, t: nat)
    requires IsRun(cfg, states, events) && i <= j < |states|
    requires t in states[i].threads && states[i].threads[t].job.CheckStatus? && PastCredit(states[i].threads[t].pc)
    requires forall k :: i <= k < j ==> events[k] != Crash(states[i].threads[t].proc)
    ensures Completes(states[j], t, states[i].threads[t].job.id)
    ensures states[j].threads[t].proc == states[i].threads[t].proc
    decreases j
  {
    hide Inv, Step, Possible, Follows, PastCredit;
    if i < j {
      CreditedSettles(cfg, states, events, i, j - 1, t);
      RunInv(cfg, states, events, j - 1);
      OneStep(cfg, states, events, j - 1);
      StepCompletes(cfg, states[j - 1], events[j - 1], t, states[i].threads[t].job.id);
    }
  }

  // ---- Exactly-once notification ----

  /** Notifications sent, due and lost account for every paid invoice, once. */
  lemma ExactlyOnce(cfg: Config, states: seq<State>, events: seq<Event>, i: nat, id: string)
    requires IsRun(cfg, states, events) && i < |states|
    ensures var s := states[i];
      && Fires(s.fired, id) + |Winners(s.threads, id)| + (if id in s.unsent then 1 else 0)
         == (if IsPaid(s.store.invoices, id) then 1 else 0)
      && Fires(s.fired, id) <= 1
  {
    hide IsRun, LocksOk, ThreadsOk, AllJustified, Fires, Winners;
    RunInv(cfg, states, events, i);
    assert Once(states[i].store.invoices, states[i].threads, states[i].fired, states[i].unsent, id);
  }

  /** Every process that ran has a webhook, and none crashed. */
  ghost predicate Undisturbed(cfg: Config, events: seq<Event>) {
    forall i :: 0 <= i < |events| ==> !events[i].Crash? && (events[i].Spawn? ==> events[i].proc in cfg.hooked)
  }

  /** All threads have a webhook to notify, and no notification is lost. */
  ghost predicate Lossless(cfg: Config, s: State) {
    s.unsent == {} && forall t :: t in s.threads ==> s.threads[t].proc in cfg.hooked
  }

  lemma GoLossless(cfg: Config, s: State, t: nat, x: Input)
    requires Lossless(cfg, s) && t in s.threads && Typed(s.threads[t]) && !s.threads[t].pc.Finished?
    ensures Lossless(cfg, Next(cfg, s, t, x))
  {
    hide LocalNext, Claim, Expire, Create, Typed, Settled, Lapsed;
  }

  lemma {:induction false} NothingLost(cfg: Config, states: seq<State>, events: seq<Event>, i: nat)
    requires IsRun(cfg, states, events) && Undisturbed(cfg, events) && i < |states|
    ensures Lossless(cfg, states[i])
  {
    hide Next, Honest, Follows;
    if i > 0 {
      NothingLost(cfg, states, events, i - 1);
      var s, e := states[i - 1], events[i - 1];
      OneStep(cfg, states, events, i - 1);
      if e.Go? {
        GoLossless(cfg, s, e.t, e.input);
      }
    }
  }

  /** When all calls have returned, an undisturbed run has notified each paid invoice
      once, as stored, and no other. */
  lemma NotifiedIffPaid(cfg: Config, states: seq<State>, events: seq<Event>, i: nat, id: string)
    requires IsRun(cfg, states, events) && Undisturbed(cfg, events) && i < |states|
    requires forall t :: t in states[i].threads ==> states[i].threads[t].pc.Finished?
    ensures Fires(states[i].fired, id) == if IsPaid(states[i].store.invoices, id) then 1 else 0
    ensures forall k :: 0 <= k < |states[i].fired| && states[i].fired[k].id == id ==>
      IsPaid(states[i].store.invoices, id) && states[i].fired[k] == states[i].store.invoices[id]
  {
    hide IsRun, Undisturbed, LocksOk, ThreadsOk, AllJustified, Fires;
    ExactlyOnce(cfg, states, events, i, id);
    NothingLost(cfg, states, events, i);
    assert Winners(states[i].threads, id) == {};
    RunInv(cfg, states, events, i);
  }

  // ---- Conservation ----

  /** What has been credited under an address string. */
  ghost function Credits(ledger: Ledger, payTo: string): map<string, int> {
    map id | id in ledger && ledger[id].status == Paid && ledger[id].payTo == payTo :: ledger[id].amountNano
  }

  /** What an account has received. */
  ghost function Receipts(chain: Chain, account: string): map<string, int> {
    map h | h in chain && chain[h].account == account :: chain[h].value
  }

  /** Two paid invoices under one address never share a transaction. */
  lemma NoDoubleCredit(s: State, i: string, j: string)
    requires Inv(s) && IsPaid(s.store.invoices, i) && IsPaid(s.store.invoices, j)
    requires s.store.invoices[i].payTo == s.store.invoices[j].payTo && s.store.invoices[i].txHash == s.store.invoices[j].txHash
    ensures i == j
  {
    hide Pays, LapseOk, LocksOk, ThreadsOk, AllOnce, FiredOk, Indexed, AllJustified, Account;
    var a, b := s.store.invoices[i], s.store.invoices[j];
    InvBacked(s, i);
    InvBacked(s, j);
    assert KeyOf(a) == KeyOf(b);
  }

  /** The money credited under an address string never exceeds what its account has
      received. */
  lemma Conservation(cfg: Config, states: seq<State>, events: seq<Event>, i: nat, payTo: string)
    requires IsRun(cfg, states, events) && i < |states|
    ensures Account(payTo).Some? ==>
      Total(Credits(states[i].store.invoices, payTo)) <= Total(Receipts(states[i].chain, Account(payTo).value))
  {
    hide IsRun, Inv, Pays, Account, Total;
    if Account(payTo).None? {
      return;
    }
    RunInv(cfg, states, events, i);
    var s, account := states[i], Account(payTo).value;
    var credits, receipts := Credits(s.store.invoices, payTo), Receipts(s.chain, account);
    var to := map id | id in credits :: s.store.invoices[id].txHash;
    forall id | id in credits ensures to[id] in receipts && credits[id] <= receipts[to[id]] {
      Soundness(cfg, states, events, i, id);
    }
    forall j, k | j in credits && k in credits && j != k ensures to[j] != to[k] {
      if to[j] == to[k] {
        NoDoubleCredit(s, j, k);
      }
    }
    TotalCharged(credits, receipts, to);
  }

  // ---- Exclusion ----

  /** Two threads of one process are never both inside the lock of one invoice, nor
      both inside the lock map; whoever waits for a key is not inside the map. */
  lemma Exclusion(cfg: Config, states: seq<State>, events: seq<Event>, i: nat, t: nat, u: nat)
    requires IsRun(cfg, states, events) && i < |states|
    requires t in states[i].threads && u in states[i].threads && states[i].threads[t].proc == states[i].threads[u].proc
    ensures var a, b := states[i].threads[t], states[i].threads[u];
      && (Critical(a) && Critical(b) && a.job == b.job ==> t == u)
      && (a.pc.InTable? && b.pc.InTable? ==> t == u)
      && (a.pc.WantKey? ==> TableOf(states[i].tables, a.proc).holder != Some(t))
  {
    hide IsRun, ThreadsOk, AllJustified, AllOnce, TableOf;
    RunInv(cfg, states, events, i);
    var s := states[i];
    assert InsideOk(TableOf(s.tables, s.threads[t].proc), t, s.threads[t]);
    assert InsideOk(TableOf(s.tables, s.threads[u].proc), u, s.threads[u]);
    assert TableOk(s.threads, s.threads[t].proc, TableOf(s.tables, s.threads[t].proc));
  }
}
