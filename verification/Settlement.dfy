/** What every step of the settlement protocol keeps. */
module Settlement {
  import opened GoText
  import opened Store
  import opened Verifier
  import opened Protocol

  // ---- The life of an invoice ----

  /** An invoice stays as it is, or leaves pending once with its terms unchanged. */
  predicate Evolves(a: Invoice, b: Invoice) {
    || a == b
    || (a.status == Pending && b.status == Paid && b == Settled(a, b.txHash, b.paidAt))
    || (a.status == Pending && b == Lapsed(a))
  }

  ghost predicate LedgerEvolves(a: Ledger, b: Ledger) {
    forall id :: id in a ==> id in b && Evolves(a[id], b[id])
  }

  lemma LedgerEvolvesTransitive(a: Ledger, b: Ledger, c: Ledger)
    requires LedgerEvolves(a, b) && LedgerEvolves(b, c)
    ensures LedgerEvolves(a, c)
  {
  }

  lemma EvolvesKeepsTerms(a: Invoice, b: Invoice)
    requires Evolves(a, b)
    ensures SameTerms(a, b)
    ensures a.status != Pending ==> a == b
    ensures b.status == Pending ==> a == b
  {
  }

  // ---- What a thread knows ----

  /** A copy read from the store, possibly out of date. */
  ghost predicate Seen(ledger: Ledger, id: string, inv: Invoice) {
    inv.id == id && id in ledger && Evolves(inv, ledger[id])
  }

  ghost predicate SeenPending(ledger: Ledger, id: string, inv: Invoice) {
    Seen(ledger, id, inv) && inv.status == Pending
  }

  /** A reply is a copy of the stored invoice, exact if terminal; and an invoice that
      was overdue when the check began is no longer pending when it ends. */
  ghost predicate ReplyOk(ledger: Ledger, id: string, started: int, reply: Reply) {
    match reply
    case Replied(inv) => Seen(ledger, id, inv) && (IsPending(ledger, id) ==> !Overdue(inv, started))
    case StoreError(inv) => SeenPending(ledger, id, inv)
    case _ => true
  }

  ghost predicate Expirable(ledger: Ledger, chain: Chain, id: string, inv: Invoice, response: Response) {
    SeenPending(ledger, id, inv) && Honest(chain, inv.payTo, response) && !Judge(inv, response).Credited?
  }

  ghost predicate CheckOk(ledger: Ledger, chain: Chain, id: string, started: int, pc: Pc) {
    match pc
    case Verifying(inv) => SeenPending(ledger, id, inv)
    case WantTable(inv, tx) => SeenPending(ledger, id, inv) && Witness(chain, inv, tx)
    case InTable(inv, tx) => SeenPending(ledger, id, inv) && Witness(chain, inv, tx)
    case WantKey(inv, tx) => SeenPending(ledger, id, inv) && Witness(chain, inv, tx)
    case Rereading(inv, tx) => SeenPending(ledger, id, inv) && Witness(chain, inv, tx)
    case Settling(inv, tx) => SeenPending(ledger, id, inv) && Witness(chain, inv, tx)
    case Claiming(inv, tx, _) => SeenPending(ledger, id, inv) && Witness(chain, inv, tx)
    case LostClaim(inv) => SeenPending(ledger, id, inv) && !IsPending(ledger, id)
    case Firing(inv) => inv.status == Paid && id in ledger && ledger[id] == inv && inv.id == id
    case Unlocking(reply) => ReplyOk(ledger, id, started, reply) && (reply.Replied? ==> !IsPending(ledger, id))
    case Timing(inv, response) => Expirable(ledger, chain, id, inv, response)
    case Expiring(inv, response, at) => Expirable(ledger, chain, id, inv, response) && Overdue(inv, at)
    case LostExpiry(inv) => SeenPending(ledger, id, inv) && !IsPending(ledger, id)
    case Finished(reply) => ReplyOk(ledger, id, started, reply)
    case _ => true
  }

  /** An invoice, or its draft, as the caller asked for it. */
  predicate AsAsked(inv: Invoice, job: Job)
    requires job.CreateInvoice?
  {
    inv.payTo == job.payTo && inv.amountNano == job.amountNano && inv.metadata == job.metadata && inv.currency == "TON"
  }

  ghost predicate CreateOk(ledger: Ledger, job: Job, pc: Pc)
    requires job.CreateInvoice?
  {
    match pc
    case Inserting(draft, attempt) => draft.status == Pending && attempt < ATTEMPTS && AsAsked(draft, job)
    case Finished(reply) => reply.Replied? ==> Seen(ledger, reply.inv.id, reply.inv) && AsAsked(reply.inv, job)
    case _ => true
  }

  ghost predicate ThreadOk(ledger: Ledger, chain: Chain, th: Thread) {
    && Typed(th)
    && match th.job
       case CheckStatus(id) => CheckOk(ledger, chain, id, th.started, th.pc)
       case CreateInvoice(_, _, _, _) => CreateOk(ledger, th.job, th.pc)
  }

  ghost predicate ThreadsOk(ledger: Ledger, chain: Chain, threads: map<nat, Thread>) {
    forall t :: t in threads ==> ThreadOk(ledger, chain, threads[t])
  }

  // ---- What the store records ----

  /** The evidence an invoice was paid on: an entry with its hash that reports a
      transaction of the chain and pays it. */
  ghost predicate CreditOk(chain: Chain, inv: Invoice, credit: Evidence) {
    credit.Credit? && credit.entry.hash == inv.txHash && Witness(chain, inv, credit.entry)
  }

  /** The evidence an invoice was expired on: an unpaid or failed check and then a
      clock past the deadline. */
  ghost predicate LapseOk(chain: Chain, inv: Invoice, lapse: Evidence) {
    lapse.Lapse? && Honest(chain, inv.payTo, lapse.response) && !Judge(inv, lapse.response).Credited? && Overdue(inv, lapse.at)
  }

  ghost predicate Justified(chain: Chain, why: map<string, Evidence>, id: string, inv: Invoice) {
    && (inv.status == Paid ==> id in why && CreditOk(chain, inv, why[id]))
    && (inv.status == Expired ==> id in why && LapseOk(chain, inv, why[id]))
  }

  ghost predicate AllJustified(ledger: Ledger, chain: Chain, why: map<string, Evidence>) {
    forall id :: id in ledger ==> Justified(chain, why, id, ledger[id])
  }

  // ---- Locks ----

  /** Between a keyed lock and its unlock. */
  predicate Critical(th: Thread) {
    th.pc.Rereading? || th.pc.Settling? || th.pc.Claiming? || th.pc.LostClaim? || th.pc.Firing? || th.pc.Unlocking?
  }

  /** Whoever a process's locks say holds them is inside them. */
  ghost predicate TableOk(threads: map<nat, Thread>, p: nat, table: Table) {
    && (table.holder.Some? ==> HoldsTable(threads, p, table.holder.value))
    && forall k :: k in table.held ==> k in table.made && HoldsKey(threads, p, k, table.held[k])
  }

  ghost predicate HoldsTable(threads: map<nat, Thread>, p: nat, t: nat) {
    t in threads && threads[t].proc == p && threads[t].pc.InTable?
  }

  ghost predicate HoldsKey(threads: map<nat, Thread>, p: nat, k: string, t: nat) {
    t in threads && threads[t].proc == p && Critical(threads[t]) && threads[t].job == CheckStatus(k)
  }

  /** Whoever is inside a lock holds it, and whoever waits for a key's mutex waits for
      one that exists. */
  ghost predicate InsideOk(table: Table, t: nat, th: Thread) {
    && (th.pc.InTable? ==> table.holder == Some(t))
    && (Critical(th) ==> th.job.CheckStatus? && th.job.id in table.held && table.held[th.job.id] == t)
    && (th.pc.WantKey? ==> th.pc.inv.id in table.made)
  }

  ghost predicate LocksOk(threads: map<nat, Thread>, tables: map<nat, Table>) {
    && (forall p: nat :: TableOk(threads, p, TableOf(tables, p)))
    && (forall t :: t in threads ==> InsideOk(TableOf(tables, threads[t].proc), t, threads[t]))
  }

  // ---- Notifications ----

  function Fires(fired: seq<Invoice>, id: string): nat {
    if fired == [] then 0
    else Fires(fired[..|fired| - 1], id) + if fired[|fired| - 1].id == id then 1 else 0
  }

  function Winners(threads: map<nat, Thread>, id: string): set<nat> {
    set t | t in threads && Winning(threads[t], id)
  }

  predicate IsPaid(ledger: Ledger, id: string) {
    id in ledger && ledger[id].status == Paid
  }

  /** Notifications sent, about to be sent, and lost with a process or for want of a
      webhook: one in all if the invoice is paid, none otherwise. */
  ghost predicate Once(ledger: Ledger, threads: map<nat, Thread>, fired: seq<Invoice>, unsent: set<string>, id: string) {
    Fires(fired, id) + |Winners(threads, id)| + (if id in unsent then 1 else 0) == if IsPaid(ledger, id) then 1 else 0
  }

  ghost predicate AllOnce(ledger: Ledger, threads: map<nat, Thread>, fired: seq<Invoice>, unsent: set<string>) {
    forall id :: Once(ledger, threads, fired, unsent, id)
  }

  /** What was sent is the paid invoice as stored. */
  ghost predicate FiredOk(ledger: Ledger, fired: seq<Invoice>) {
    forall i :: 0 <= i < |fired| ==> fired[i].status == Paid && fired[i].id in ledger && ledger[fired[i].id] == fired[i]
  }

  // ---- The invariant ----

  ghost predicate Inv(s: State) {
    && Indexed(s.store) && Distinct(s.store.invoices)
    && ThreadsOk(s.store.invoices, s.chain, s.threads)
    && AllJustified(s.store.invoices, s.chain, s.why)
    && LocksOk(s.threads, s.tables)
    && AllOnce(s.store.invoices, s.threads, s.fired, s.unsent)
    && FiredOk(s.store.invoices, s.fired)
  }

  lemma InitInv(durable: bool)
    ensures Inv(Init(durable))
  {
    assert forall id :: Winners(map[], id) == {};
  }

  // ---- Knowledge survives the steps of others ----

  lemma SeenStays(a: Ledger, b: Ledger, id: string, inv: Invoice)
    requires Seen(a, id, inv) && LedgerEvolves(a, b)
    ensures Seen(b, id, inv) && (IsPending(b, id) ==> IsPending(a, id))
  {
  }

  lemma HonestStays(chain: Chain, chain': Chain, payTo: string, response: Response)
    requires Honest(chain, payTo, response) && Grows(chain, chain')
    ensures Honest(chain', payTo, response)
  {
    hide Account, ParseInt;
  }

  lemma CheckOkStays(a: Ledger, b: Ledger, chain: Chain, chain': Chain, id: string, started: int, pc: Pc)
    requires CheckOk(a, chain, id, started, pc) && LedgerEvolves(a, b) && Grows(chain, chain')
    ensures CheckOk(b, chain', id, started, pc)
  {
    hide Witness, Honest, Judge, Grows, Evolves, Seen, LedgerEvolves;
    match pc
    case Verifying(inv) => SeenStays(a, b, id, inv);
    case WantTable(inv, tx) => SeenStays(a, b, id, inv); WitnessStays(chain, chain', inv, inv, tx);
    case InTable(inv, tx) => SeenStays(a, b, id, inv); WitnessStays(chain, chain', inv, inv, tx);
    case WantKey(inv, tx) => SeenStays(a, b, id, inv); WitnessStays(chain, chain', inv, inv, tx);
    case Rereading(inv, tx) => SeenStays(a, b, id, inv); WitnessStays(chain, chain', inv, inv, tx);
    case Settling(inv, tx) => SeenStays(a, b, id, inv); WitnessStays(chain, chain', inv, inv, tx);
    case Claiming(inv, tx, _) => SeenStays(a, b, id, inv); WitnessStays(chain, chain', inv, inv, tx);
    case LostClaim(inv) => SeenStays(a, b, id, inv);
    case Firing(inv) => TerminalStays(a, b, id);
    case Unlocking(reply) => ReplyStays(a, b, id, started, reply);
    case Timing(inv, response) => SeenStays(a, b, id, inv); HonestStays(chain, chain', inv.payTo, response);
    case Expiring(inv, response, _) => SeenStays(a, b, id, inv); HonestStays(chain, chain', inv.payTo, response);
    case LostExpiry(inv) => SeenStays(a, b, id, inv);
    case Finished(reply) => ReplyStays(a, b, id, started, reply);
    case _ =>
  }

  lemma TerminalStays(a: Ledger, b: Ledger, id: string)
    requires LedgerEvolves(a, b) && id in a && a[id].status != Pending
    ensures id in b && b[id] == a[id]
  {
  }

  lemma ReplyStays(a: Ledger, b: Ledger, id: string, started: int, reply: Reply)
    requires ReplyOk(a, id, started, reply) && LedgerEvolves(a, b)
    ensures ReplyOk(b, id, started, reply)
    ensures reply.Replied? && IsPending(b, id) ==> IsPending(a, id)
  {
    hide Evolves, Seen, LedgerEvolves;
    if reply.Replied? || reply.StoreError? {
      SeenStays(a, b, id, reply.inv);
    }
  }

  lemma ThreadOkStays(a: Ledger, b: Ledger, chain: Chain, chain': Chain, th: Thread)
    requires ThreadOk(a, chain, th) && LedgerEvolves(a, b) && Grows(chain, chain')
    ensures ThreadOk(b, chain', th)
  {
    hide CheckOk, Evolves, LedgerEvolves, Grows;
    if th.job.CheckStatus? {
      CheckOkStays(a, b, chain, chain', th.job.id, th.started, th.pc);
    } else if th.pc.Finished? && th.pc.reply.Replied? {
      SeenStays(a, b, th.pc.reply.inv.id, th.pc.reply.inv);
    }
  }

  lemma ThreadsOkStay(a: Ledger, b: Ledger, chain: Chain, chain': Chain, threads: map<nat, Thread>)
    requires ThreadsOk(a, chain, threads) && LedgerEvolves(a, b) && Grows(chain, chain')
    ensures ThreadsOk(b, chain', threads)
  {
    hide ThreadOk, LedgerEvolves, Grows;
    forall t | t in threads ensures ThreadOk(b, chain', threads[t]) {
      ThreadOkStays(a, b, chain, chain', threads[t]);
    }
  }

  lemma {:induction false} JudgeTerms(a: Invoice, b: Invoice, response: Response)
    requires SameTerms(a, b)
    ensures Judge(a, response) == Judge(b, response)
  {
    if response.Some? {
      FirstMatchTerms(a, b, response.value);
    }
  }

  lemma {:induction false} FirstMatchTerms(a: Invoice, b: Invoice, entries: seq<Entry>)
    requires SameTerms(a, b)
    ensures FirstMatch(a, entries) == FirstMatch(b, entries)
  {
    hide Account, ParseInt;
    if entries != [] {
      FirstMatchTerms(a, b, entries[1..]);
    }
  }

  lemma JustifiedStays(chain: Chain, chain': Chain, why: map<string, Evidence>, id: string, inv: Invoice)
    requires Justified(chain, why, id, inv) && Grows(chain, chain')
    ensures Justified(chain', why, id, inv)
  {
    hide Witness, Honest, Judge, Grows;
    if inv.status == Paid {
      WitnessStays(chain, chain', inv, inv, why[id].entry);
    } else if inv.status == Expired {
      HonestStays(chain, chain', inv.payTo, why[id].response);
    }
  }
}
