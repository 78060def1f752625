/** Every step of the settlement protocol keeps the invariant. */
module Preservation {
  import opened GoText
  import opened Store
  import opened Verifier
  import opened Protocol
  import opened Settlement

  /** Neither waiting to notify nor changing which keys have a mutex. */
  predicate Quiet(th: Thread) {
    !th.pc.InTable? && !th.pc.WantKey? && !th.pc.Firing?
  }

  // ---- A thread changes, the store does not ----

  lemma SwapThread(ledger: Ledger, chain: Chain, threads: map<nat, Thread>, t: nat, th: Thread)
    requires ThreadsOk(ledger, chain, threads) && ThreadOk(ledger, chain, th)
    ensures ThreadsOk(ledger, chain, threads[t := th])
  {
    hide ThreadOk;
  }

  lemma SwapLocks(threads: map<nat, Thread>, tables: map<nat, Table>, t: nat, th: Thread)
    requires LocksOk(threads, tables) && t in threads
    requires th.proc == threads[t].proc && th.job == threads[t].job
    requires Critical(th) == Critical(threads[t]) && !th.pc.InTable? && !th.pc.WantKey? && !threads[t].pc.InTable?
    ensures LocksOk(threads[t := th], tables)
  {
    hide TableOf, Critical;
    var threads' := threads[t := th];
    forall p: nat ensures TableOk(threads', p, TableOf(tables, p)) {
      assert TableOk(threads, p, TableOf(tables, p));
    }
  }

  lemma SwapWinners(threads: map<nat, Thread>, t: nat, th: Thread, id: string)
    requires t in threads && !threads[t].pc.Firing? && !th.pc.Firing?
    ensures Winners(threads[t := th], id) == Winners(threads, id)
  {
  }

  lemma SwapOnce(ledger: Ledger, threads: map<nat, Thread>, fired: seq<Invoice>, unsent: set<string>, t: nat, th: Thread)
    requires AllOnce(ledger, threads, fired, unsent)
    requires t in threads && !threads[t].pc.Firing? && !th.pc.Firing?
    ensures AllOnce(ledger, threads[t := th], fired, unsent)
  {
    hide Winners, Fires;
    var threads' := threads[t := th];
    forall id ensures Once(ledger, threads', fired, unsent, id) {
      SwapWinners(threads, t, th, id);
      assert Once(ledger, threads, fired, unsent, id);
    }
  }

  // ---- Local steps ----

  /** What a lookup tells a thread that has seen the invoice before. */
  lemma GetSeen(m: Mem, id: string, ok: bool)
    requires Distinct(m.invoices) && Get(m, id, ok).Some?
    ensures Seen(m.invoices, id, Get(m, id, ok).value)
    ensures Get(m, id, ok).value.status == Pending <==> IsPending(m.invoices, id)
  {
  }

  lemma SeenTerms(ledger: Ledger, id: string, a: Invoice, b: Invoice)
    requires Seen(ledger, id, a) && Seen(ledger, id, b)
    ensures SameTerms(a, b)
  {
  }

  lemma LocalRoles(cfg: Config, m: Mem, th: Thread, x: Input)
    requires IsLocal(th.pc) && Typed(th)
    ensures var th' := th.(pc := LocalNext(cfg, m, th, x));
      Typed(th') && Quiet(th) && Quiet(th') && Critical(th) == Critical(th')
  {
    hide Get, Judge, Draft, OverCap, Overdue;
  }

  lemma LocalCheckOk(cfg: Config, s: State, t: nat, x: Input)
    requires Inv(s) && Enabled(s, t, x) && IsLocal(s.threads[t].pc) && s.threads[t].job.CheckStatus?
    ensures var th := s.threads[t];
      CheckOk(s.store.invoices, s.chain, th.job.id, th.started, LocalNext(cfg, s.store, th, x))
  {
    hide Seen, Witness, Honest, Judge, Distinct, Get, IsPending, LocksOk, AllOnce, AllJustified, FiredOk, Indexed, SameTerms;
    var th, ledger := s.threads[t], s.store.invoices;
    assert ThreadOk(ledger, s.chain, th);
    var id := th.job.id;
    if Get(s.store, id, x.ok).Some? {
      GetSeen(s.store, id, x.ok);
    }
    match th.pc
    case Verifying(inv) =>
      if Judge(inv, x.response).Credited? {
        CreditedHasWitness(s.chain, inv, x.response);
      }
    case Rereading(inv, tx) =>
      if Get(s.store, id, x.ok).Some? {
        var got := Get(s.store, id, x.ok).value;
        SeenTerms(ledger, id, inv, got);
        WitnessStays(s.chain, s.chain, inv, got, tx);
      }
    case LostClaim(inv) => SeenId(ledger, id, inv);
    case LostExpiry(inv) => SeenId(ledger, id, inv);
    case _ =>
  }

  lemma LocalOk(cfg: Config, s: State, t: nat, x: Input)
    requires Inv(s) && Enabled(s, t, x) && IsLocal(s.threads[t].pc)
    ensures var th := s.threads[t];
      var th' := th.(pc := LocalNext(cfg, s.store, th, x));
      ThreadOk(s.store.invoices, s.chain, th') && Quiet(th) && Quiet(th') && Critical(th) == Critical(th')
  {
    hide CheckOk, Seen, Get, Judge, Inv;
    var th := s.threads[t];
    LocalRoles(cfg, s.store, th, x);
    if th.job.CheckStatus? {
      LocalCheckOk(cfg, s, t, x);
    }
  }

  lemma SeenId(ledger: Ledger, id: string, inv: Invoice)
    requires Seen(ledger, id, inv)
    ensures inv.id == id
  {
  }

  lemma LocalKeeps(cfg: Config, s: State, t: nat, x: Input)
    requires Inv(s) && Enabled(s, t, x) && IsLocal(s.threads[t].pc)
    ensures Inv(Next(cfg, s, t, x))
  {
    hide LocalNext, ThreadOk, ThreadsOk, LocksOk, AllOnce, AllJustified, FiredOk, Indexed, Distinct;
    LocalOk(cfg, s, t, x);
    var th := s.threads[t];
    var th' := th.(pc := LocalNext(cfg, s.store, th, x));
    SwapThread(s.store.invoices, s.chain, s.threads, t, th');
    SwapLocks(s.threads, s.tables, t, th');
    SwapOnce(s.store.invoices, s.threads, s.fired, s.unsent, t, th');
  }

  // ---- Lock steps ----

  predicate IsLockStep(pc: Pc) {
    pc.WantTable? || pc.InTable? || pc.WantKey? || pc.Unlocking?
  }

  lemma InUpdated(tables: map<nat, Table>, p: nat, table: Table, q: nat)
    ensures TableOf(tables[p := table], q) == if q == p then table else TableOf(tables, q)
  {
  }

  /** A thread and the lock table of its process change together. */
  lemma MoveLocks(threads: map<nat, Thread>, tables: map<nat, Table>, t: nat, th: Thread, table': Table)
    requires LocksOk(threads, tables) && t in threads && th.proc == threads[t].proc
    requires TableOk(threads[t := th], th.proc, table') && InsideOk(table', t, th)
    requires forall u :: u in threads && u != t && threads[u].proc == th.proc ==> InsideOk(table', u, threads[u])
    ensures LocksOk(threads[t := th], tables[th.proc := table'])
  {
    hide TableOf, InsideOk;
    var p, threads', tables' := th.proc, threads[t := th], tables[th.proc := table'];
    forall q: nat ensures TableOk(threads', q, TableOf(tables', q)) {
      InUpdated(tables, p, table', q);
      assert TableOk(threads, q, TableOf(tables, q));
    }
    forall u | u in threads' ensures InsideOk(TableOf(tables', threads'[u].proc), u, threads'[u]) {
      InUpdated(tables, p, table', threads'[u].proc);
      assert u in threads ==> InsideOk(TableOf(tables, threads[u].proc), u, threads[u]);
    }
  }

  lemma AcquireTable(threads: map<nat, Thread>, tables: map<nat, Table>, t: nat, th: Thread, table: Table)
    requires LocksOk(threads, tables) && t in threads && threads[t].pc.WantTable? && table == TableOf(tables, th.proc)
    requires th.proc == threads[t].proc && th.job == threads[t].job && th.pc.InTable? && table.holder.None?
    ensures LocksOk(threads[t := th], tables[th.proc := table.(holder := Some(t))])
  {
    hide TableOf;
    assert TableOk(threads, th.proc, table);
    assert InsideOk(table, t, threads[t]);
    forall u | u in threads && u != t && threads[u].proc == th.proc ensures InsideOk(table.(holder := Some(t)), u, threads[u]) {
      assert InsideOk(table, u, threads[u]);
    }
    MoveLocks(threads, tables, t, th, table.(holder := Some(t)));
  }

  lemma ReleaseTable(threads: map<nat, Thread>, tables: map<nat, Table>, t: nat, th: Thread, table: Table)
    requires LocksOk(threads, tables) && t in threads && threads[t].pc.InTable? && table == TableOf(tables, th.proc)
    requires th.proc == threads[t].proc && th.job == threads[t].job && th.pc.WantKey?
    ensures LocksOk(threads[t := th], tables[th.proc := table.(holder := None, made := table.made + {th.pc.inv.id})])
  {
    hide TableOf;
    assert TableOk(threads, th.proc, table);
    assert InsideOk(table, t, threads[t]);
    forall u | u in threads && u != t && threads[u].proc == th.proc ensures InsideOk(table.(holder := None, made := table.made + {th.pc.inv.id}), u, threads[u]) {
      assert InsideOk(table, u, threads[u]);
    }
    MoveLocks(threads, tables, t, th, table.(holder := None, made := table.made + {th.pc.inv.id}));
  }

  lemma AcquireKey(threads: map<nat, Thread>, tables: map<nat, Table>, t: nat, th: Thread, table: Table, k: string)
    requires LocksOk(threads, tables) && t in threads && threads[t].pc.WantKey? && table == TableOf(tables, th.proc)
    requires th.proc == threads[t].proc && th.job == threads[t].job == CheckStatus(k) && th.pc.Rereading?
    requires threads[t].pc.inv.id == k && k !in table.held
    ensures LocksOk(threads[t := th], tables[th.proc := table.(held := table.held[k := t])])
  {
    hide TableOf;
    assert TableOk(threads, th.proc, table);
    assert InsideOk(table, t, threads[t]);
    forall u | u in threads && u != t && threads[u].proc == th.proc ensures InsideOk(table.(held := table.held[k := t]), u, threads[u]) {
      assert InsideOk(table, u, threads[u]);
    }
    MoveLocks(threads, tables, t, th, table.(held := table.held[k := t]));
  }

  lemma ReleaseKey(threads: map<nat, Thread>, tables: map<nat, Table>, t: nat, th: Thread, table: Table, k: string)
    requires LocksOk(threads, tables) && t in threads && threads[t].pc.Unlocking? && table == TableOf(tables, th.proc)
    requires th.proc == threads[t].proc && th.job == threads[t].job == CheckStatus(k) && th.pc.Finished?
    ensures LocksOk(threads[t := th], tables[th.proc := table.(held := table.held - {k})])
  {
    hide TableOf;
    assert TableOk(threads, th.proc, table);
    assert InsideOk(table, t, threads[t]);
    forall u | u in threads && u != t && threads[u].proc == th.proc ensures InsideOk(table.(held := table.held - {k}), u, threads[u]) {
      assert InsideOk(table, u, threads[u]);
    }
    MoveLocks(threads, tables, t, th, table.(held := table.held - {k}));
  }

  lemma LockStepLocks(s: State, t: nat, x: Input)
    requires Inv(s) && Enabled(s, t, x) && IsLockStep(s.threads[t].pc)
    ensures var s' := LockStep(s, t); LocksOk(s'.threads, s'.tables)
  {
    hide LocksOk, AllOnce, AllJustified, FiredOk, Indexed, Distinct, Witness;
    var th, th' := s.threads[t], LockStep(s, t).threads[t];
    var table := TableOf(s.tables, th.proc);
    assert ThreadOk(s.store.invoices, s.chain, th);
    match th.pc
    case WantTable(_, _) => AcquireTable(s.threads, s.tables, t, th', table);
    case InTable(_, _) => ReleaseTable(s.threads, s.tables, t, th', table);
    case WantKey(_, _) => AcquireKey(s.threads, s.tables, t, th', table, th.job.id);
    case Unlocking(_) => ReleaseKey(s.threads, s.tables, t, th', table, th.job.id);
  }

  lemma LockThreadOk(s: State, t: nat, x: Input)
    requires Inv(s) && Enabled(s, t, x) && IsLockStep(s.threads[t].pc)
    ensures ThreadOk(s.store.invoices, s.chain, LockStep(s, t).threads[t])
  {
    hide LocksOk, AllOnce, AllJustified, FiredOk, Indexed, Distinct, Witness, SeenPending, ReplyOk;
    assert ThreadOk(s.store.invoices, s.chain, s.threads[t]);
  }

  lemma LockKeeps(cfg: Config, s: State, t: nat, x: Input)
    requires Inv(s) && Enabled(s, t, x) && IsLockStep(s.threads[t].pc)
    ensures Inv(Next(cfg, s, t, x))
  {
    hide ThreadOk, ThreadsOk, LocksOk, AllOnce, AllJustified, FiredOk, Indexed, Distinct;
    var th' := LockStep(s, t).threads[t];
    LockStepLocks(s, t, x);
    LockThreadOk(s, t, x);
    SwapThread(s.store.invoices, s.chain, s.threads, t, th');
    SwapOnce(s.store.invoices, s.threads, s.fired, s.unsent, t, th');
  }

  // ---- Firing the webhook ----

  lemma WinnersMove(threads: map<nat, Thread>, t: nat, th: Thread, id: string)
    requires t in threads
    ensures Winners(threads[t := th], id)
      == if Winning(th, id) then Winners(threads, id) + {t} else Winners(threads, id) - {t}
    ensures t in Winners(threads, id) <==> Winning(threads[t], id)
  {
  }

  lemma FiresMore(fired: seq<Invoice>, inv: Invoice, id: string)
    ensures Fires(fired + [inv], id) == Fires(fired, id) + if inv.id == id then 1 else 0
  {
    assert (fired + [inv])[..|fired|] == fired;
  }

  lemma FireOnce(ledger: Ledger, threads: map<nat, Thread>, fired: seq<Invoice>, unsent: set<string>, t: nat, th: Thread)
    requires AllOnce(ledger, threads, fired, unsent)
    requires t in threads && threads[t].pc.Firing? && !th.pc.Firing?
    ensures AllOnce(ledger, threads[t := th], fired + [threads[t].pc.inv], unsent)
  {
    hide Winners, Fires;
    var threads', fired' := threads[t := th], fired + [threads[t].pc.inv];
    forall id ensures Once(ledger, threads', fired', unsent, id) {
      WinnersMove(threads, t, th, id);
      FiresMore(fired, threads[t].pc.inv, id);
      assert Once(ledger, threads, fired, unsent, id);
    }
  }

  lemma FireKeeps(cfg: Config, s: State, t: nat, x: Input)
    requires Inv(s) && Enabled(s, t, x) && s.threads[t].pc.Firing?
    ensures Inv(Next(cfg, s, t, x))
  {
    hide ThreadsOk, LocksOk, AllOnce, AllJustified, Indexed, Distinct;
    var th := s.threads[t];
    assert ThreadOk(s.store.invoices, s.chain, th) by { AThread(s, t); }
    var th' := th.(pc := Unlocking(Replied(th.pc.inv)));
    SwapThread(s.store.invoices, s.chain, s.threads, t, th');
    SwapLocks(s.threads, s.tables, t, th');
    FireOnce(s.store.invoices, s.threads, s.fired, s.unsent, t, th');
  }

  lemma AThread(s: State, t: nat)
    requires ThreadsOk(s.store.invoices, s.chain, s.threads) && t in s.threads
    ensures ThreadOk(s.store.invoices, s.chain, s.threads[t])
  {
  }

  // ---- Claiming and expiring ----

  /** A transition happens exactly when the invoice is pending and the write works,
      and otherwise changes nothing. */
  lemma MoveEffect(m: Mem, op: Op, ok: bool)
    requires op.ClaimOp? || op.ExpireOp?
    ensures var (m', outcome) := Apply(m, op, ok);
      && (outcome.Refused? <==> !IsPending(m.invoices, op.id))
      && (!outcome.Done? ==> m' == m)
      && (outcome.Done? ==> m'.invoices == m.invoices[op.id := Moved(m.invoices[op.id], op)])
  {
    if m.durable {
      MoveRollback(m, op);
    }
  }

  lemma LedgerMoves(ledger: Ledger, id: string, inv: Invoice)
    requires id in ledger ==> Evolves(ledger[id], inv)
    ensures LedgerEvolves(ledger, ledger[id := inv])
  {
  }

  lemma FiredStays(ledger: Ledger, id: string, inv: Invoice, fired: seq<Invoice>)
    requires FiredOk(ledger, fired) && (id in ledger ==> ledger[id].status == Pending)
    ensures FiredOk(ledger[id := inv], fired)
  {
  }

  lemma JustifiedMove(ledger: Ledger, chain: Chain, why: map<string, Evidence>, why': map<string, Evidence>, id: string, inv: Invoice)
    requires AllJustified(ledger, chain, why) && Justified(chain, why', id, inv)
    requires forall k :: k in why && k != id ==> k in why' && why'[k] == why[k]
    ensures AllJustified(ledger[id := inv], chain, why')
  {
    hide CreditOk, LapseOk;
  }

  /** A status change that is not a payment, or an insert, notifies nobody. */
  lemma UnpaidOnce(ledger: Ledger, threads: map<nat, Thread>, fired: seq<Invoice>, unsent: set<string>, id: string, inv: Invoice)
    requires AllOnce(ledger, threads, fired, unsent) && !IsPaid(ledger, id) && inv.status != Paid
    ensures AllOnce(ledger[id := inv], threads, fired, unsent)
  {
    hide Winners, Fires;
    var ledger' := ledger[id := inv];
    forall k ensures Once(ledger', threads, fired, unsent, k) {
      assert Once(ledger, threads, fired, unsent, k);
    }
  }

  /** The claim winner is the one that will notify, unless it has no webhook. */
  lemma ClaimOnce(ledger: Ledger, threads: map<nat, Thread>, fired: seq<Invoice>, unsent: set<string>,
                  id: string, inv: Invoice, t: nat, th: Thread)
    requires AllOnce(ledger, threads, fired, unsent) && !IsPaid(ledger, id) && inv.status == Paid
    requires t in threads && !threads[t].pc.Firing? && (th.pc.Firing? ==> th.pc.inv.id == id)
    ensures AllOnce(ledger[id := inv], threads[t := th], fired, if th.pc.Firing? then unsent else unsent + {id})
  {
    hide Winners, Fires;
    var ledger', threads', unsent' := ledger[id := inv], threads[t := th], if th.pc.Firing? then unsent else unsent + {id};
    forall k ensures Once(ledger', threads', fired, unsent', k) {
      WinnersMove(threads, t, th, k);
      assert Once(ledger, threads, fired, unsent, k);
    }
  }

  /** The parts of the invariant that follow from the new store alone. */
  ghost predicate StoreKeeps(s: State, m: Mem, why: map<string, Evidence>) {
    && Indexed(m) && Distinct(m.invoices)
    && ThreadsOk(m.invoices, s.chain, s.threads)
    && AllJustified(m.invoices, s.chain, why)
    && FiredOk(m.invoices, s.fired)
  }

  lemma ClaimStore(s: State, t: nat, ok: bool)
    requires Inv(s) && t in s.threads && s.threads[t].pc.Claiming?
    requires var pc := s.threads[t].pc; Claim(s.store, pc.inv.id, pc.tx.hash, pc.at, ok).1.Done?
    ensures var pc := s.threads[t].pc;
      var m, paid := Claim(s.store, pc.inv.id, pc.tx.hash, pc.at, ok).0, Settled(pc.inv, pc.tx.hash, pc.at);
      && IsPending(s.store.invoices, paid.id)
      && m.invoices == s.store.invoices[paid.id := paid]
      && StoreKeeps(s, m, s.why[paid.id := Credit(pc.tx)])
      && s.threads[t].job == CheckStatus(paid.id)
  {
    hide LocksOk, AllOnce, Indexed, Distinct, Witness, ThreadsOk, AllJustified, FiredOk, Move;
    var pc, ledger := s.threads[t].pc, s.store.invoices;
    var id, paid, op := pc.inv.id, Settled(pc.inv, pc.tx.hash, pc.at), ClaimOp(pc.inv.id, pc.tx.hash, pc.at);
    AThread(s, t);
    MoveEffect(s.store, op, ok);
    AlwaysIndexed(s.store, op, ok);
    assert ledger[id] == pc.inv;
    LedgerMoves(ledger, id, paid);
    ThreadsOkStay(ledger, ledger[id := paid], s.chain, s.chain, s.threads);
    WitnessStays(s.chain, s.chain, pc.inv, paid, pc.tx);
    JustifiedMove(ledger, s.chain, s.why, s.why[id := Credit(pc.tx)], id, paid);
    FiredStays(ledger, id, paid, s.fired);
  }

  lemma ClaimWon(cfg: Config, s: State, t: nat, x: Input)
    requires Inv(s) && Enabled(s, t, x) && s.threads[t].pc.Claiming?
    requires var pc := s.threads[t].pc; Claim(s.store, pc.inv.id, pc.tx.hash, pc.at, x.ok).1.Done?
    ensures Inv(Next(cfg, s, t, x))
  {
    hide LocksOk, AllOnce, Indexed, Distinct, ThreadsOk, AllJustified, FiredOk, Claim;
    var th, s' := s.threads[t], Next(cfg, s, t, x);
    var paid, th' := Settled(th.pc.inv, th.pc.tx.hash, th.pc.at), s'.threads[t];
    ClaimStore(s, t, x.ok);
    SwapThread(s'.store.invoices, s.chain, s.threads, t, th');
    SwapLocks(s.threads, s.tables, t, th');
    ClaimOnce(s.store.invoices, s.threads, s.fired, s.unsent, paid.id, paid, t, th');
  }

  lemma ClaimNotWon(cfg: Config, s: State, t: nat, x: Input)
    requires Inv(s) && Enabled(s, t, x) && s.threads[t].pc.Claiming?
    requires var pc := s.threads[t].pc; !Claim(s.store, pc.inv.id, pc.tx.hash, pc.at, x.ok).1.Done?
    ensures Inv(Next(cfg, s, t, x))
  {
    hide LocksOk, AllOnce, Indexed, Distinct, ThreadsOk, AllJustified, FiredOk, Claim, Witness, OnlyMoved;
    var th, s' := s.threads[t], Next(cfg, s, t, x);
    AThread(s, t);
    MoveEffect(s.store, ClaimOp(th.pc.inv.id, th.pc.tx.hash, th.pc.at), x.ok);
    SwapThread(s.store.invoices, s.chain, s.threads, t, s'.threads[t]);
    SwapLocks(s.threads, s.tables, t, s'.threads[t]);
    SwapOnce(s.store.invoices, s.threads, s.fired, s.unsent, t, s'.threads[t]);
  }

  lemma ExpireStore(s: State, t: nat, ok: bool)
    requires Inv(s) && t in s.threads && s.threads[t].pc.Expiring?
    requires Expire(s.store, s.threads[t].pc.inv.id, ok).1.Done?
    ensures var pc := s.threads[t].pc;
      var m, gone := Expire(s.store, pc.inv.id, ok).0, Lapsed(pc.inv);
      && IsPending(s.store.invoices, gone.id)
      && m.invoices == s.store.invoices[gone.id := gone]
      && StoreKeeps(s, m, s.why[gone.id := Lapse(pc.response, pc.at)])
      && s.threads[t].job == CheckStatus(gone.id)
  {
    hide LocksOk, AllOnce, Indexed, Distinct, Witness, ThreadsOk, AllJustified, FiredOk, Move, Honest, Judge;
    var pc, ledger := s.threads[t].pc, s.store.invoices;
    var id, gone, op := pc.inv.id, Lapsed(pc.inv), ExpireOp(pc.inv.id);
    AThread(s, t);
    MoveEffect(s.store, op, ok);
    AlwaysIndexed(s.store, op, ok);
    assert ledger[id] == pc.inv;
    LedgerMoves(ledger, id, gone);
    ThreadsOkStay(ledger, ledger[id := gone], s.chain, s.chain, s.threads);
    JudgeTerms(pc.inv, gone, pc.response);
    JustifiedMove(ledger, s.chain, s.why, s.why[id := Lapse(pc.response, pc.at)], id, gone);
    FiredStays(ledger, id, gone, s.fired);
  }

  lemma ExpireWon(cfg: Config, s: State, t: nat, x: Input)
    requires Inv(s) && Enabled(s, t, x) && s.threads[t].pc.Expiring? && Expire(s.store, s.threads[t].pc.inv.id, x.ok).1.Done?
    ensures Inv(Next(cfg, s, t, x))
  {
    hide LocksOk, AllOnce, Indexed, Distinct, ThreadsOk, AllJustified, FiredOk, Expire;
    var th, s' := s.threads[t], Next(cfg, s, t, x);
    var gone, th' := Lapsed(th.pc.inv), s'.threads[t];
    ExpireStore(s, t, x.ok);
    SwapThread(s'.store.invoices, s.chain, s.threads, t, th');
    SwapLocks(s.threads, s.tables, t, th');
    SwapOnce(s.store.invoices, s.threads, s.fired, s.unsent, t, th');
    UnpaidOnce(s.store.invoices, s'.threads, s.fired, s.unsent, gone.id, gone);
  }

  lemma ExpireNotWon(cfg: Config, s: State, t: nat, x: Input)
    requires Inv(s) && Enabled(s, t, x) && s.threads[t].pc.Expiring? && !Expire(s.store, s.threads[t].pc.inv.id, x.ok).1.Done?
    ensures Inv(Next(cfg, s, t, x))
  {
    hide LocksOk, AllOnce, Indexed, Distinct, ThreadsOk, AllJustified, FiredOk, Expire, Honest, Judge, OnlyMoved;
    var th, s' := s.threads[t], Next(cfg, s, t, x);
    AThread(s, t);
    MoveEffect(s.store, ExpireOp(th.pc.inv.id), x.ok);
    SwapThread(s.store.invoices, s.chain, s.threads, t, s'.threads[t]);
    SwapLocks(s.threads, s.tables, t, s'.threads[t]);
    SwapOnce(s.store.invoices, s.threads, s.fired, s.unsent, t, s'.threads[t]);
  }

  // ---- Creating ----

  lemma InsertThread(s: State, t: nat, x: Input)
    requires Inv(s) && Enabled(s, t, x) && s.threads[t].pc.Inserting?
    ensures var s' := InsertStep(s, t, x);
      var th, th' := s.threads[t], s'.threads[t];
      && th.job.CreateInvoice? && th.pc.draft.status == Pending && AsAsked(th.pc.draft, th.job)
      && th'.proc == th.proc && th'.job == th.job && !Critical(th) && !Critical(th') && Quiet(th')
      && (Create(s.store, Drawn(th.pc.draft, x.id, x.memo), x.ok).1.Done? ==>
            th'.pc == Finished(Replied(Drawn(th.pc.draft, x.id, x.memo))))
      && (!th'.pc.Finished? || !th'.pc.reply.Replied? ==> ThreadOk(s'.store.invoices, s.chain, th'))
  {
    hide LocksOk, AllOnce, Indexed, Distinct, ThreadsOk, AllJustified, FiredOk, Create;
    AThread(s, t);
  }

  lemma InsertKeeps(cfg: Config, s: State, t: nat, x: Input)
    requires Inv(s) && Enabled(s, t, x) && s.threads[t].pc.Inserting?
    ensures Inv(Next(cfg, s, t, x))
  {
    hide LocksOk, AllOnce, Indexed, Distinct, ThreadsOk, AllJustified, FiredOk, Create, LedgerEvolves, ThreadOk, Critical, Witness;
    var th, s', ledger := s.threads[t], InsertStep(s, t, x), s.store.invoices;
    assert s' == Next(cfg, s, t, x);
    var inv, th' := Drawn(th.pc.draft, x.id, x.memo), s'.threads[t];
    InsertThread(s, t, x);
    InsertEffect(s.store, inv, x.ok);
    AlwaysIndexed(s.store, CreateOp(inv), x.ok);
    SwapLocks(s.threads, s.tables, t, th');
    SwapOnce(ledger, s.threads, s.fired, s.unsent, t, th');
    if Create(s.store, inv, x.ok).1.Done? {
      LedgerMoves(ledger, inv.id, inv);
      ThreadsOkStay(ledger, s'.store.invoices, s.chain, s.chain, s.threads);
      JustifiedMove(ledger, s.chain, s.why, s.why, inv.id, inv);
      FiredStays(ledger, inv.id, inv, s.fired);
      UnpaidOnce(ledger, s'.threads, s.fired, s.unsent, inv.id, inv);
      CreatedOk(s'.store.invoices, s.chain, th', inv);
    }
    SwapThread(s'.store.invoices, s.chain, s.threads, t, th');
  }

  lemma CreatedOk(ledger: Ledger, chain: Chain, th: Thread, inv: Invoice)
    requires th.job.CreateInvoice? && th.pc == Finished(Replied(inv)) && AsAsked(inv, th.job)
    requires inv.id in ledger && ledger[inv.id] == inv
    ensures ThreadOk(ledger, chain, th)
  {
  }

  // ---- The environment ----

  lemma SpawnKeeps(cfg: Config, s: State, e: Event)
    requires Inv(s) && e.Spawn? && Possible(s, e)
    ensures Inv(Step(cfg, s, e))
  {
    hide AllJustified, FiredOk, Indexed, Distinct, ThreadOk, AllOnce, TableOf;
    var th, threads' := Thread(e.proc, e.job, e.now, StartPc(e.job)), Step(cfg, s, e).threads;
    FreshOk(s.store.invoices, s.chain, th);
    SwapThread(s.store.invoices, s.chain, s.threads, e.t, th);
    SpawnOnce(s.store.invoices, s.threads, s.fired, s.unsent, e.t, th);
    forall p: nat ensures TableOk(threads', p, TableOf(s.tables, p)) {
      assert TableOk(s.threads, p, TableOf(s.tables, p));
    }
  }

  lemma SpawnOnce(ledger: Ledger, threads: map<nat, Thread>, fired: seq<Invoice>, unsent: set<string>, t: nat, th: Thread)
    requires AllOnce(ledger, threads, fired, unsent) && t !in threads && !th.pc.Firing?
    ensures AllOnce(ledger, threads[t := th], fired, unsent)
  {
    hide Fires;
    var threads' := threads[t := th];
    forall id ensures Once(ledger, threads', fired, unsent, id) {
      assert Winners(threads', id) == Winners(threads, id);
      assert Once(ledger, threads, fired, unsent, id);
    }
  }

  lemma FreshOk(ledger: Ledger, chain: Chain, th: Thread)
    requires th.pc == StartPc(th.job)
    ensures ThreadOk(ledger, chain, th)
  {
  }

  lemma MineKeeps(cfg: Config, s: State, e: Event)
    requires Inv(s) && e.Mine? && Possible(s, e)
    ensures Inv(Step(cfg, s, e))
  {
    hide LocksOk, AllOnce, Indexed, Distinct, ThreadsOk, FiredOk, Justified;
    var chain' := s.chain[e.hash := e.tx];
    ThreadsOkStay(s.store.invoices, s.store.invoices, s.chain, chain', s.threads);
    forall id | id in s.store.invoices ensures Justified(chain', s.why, id, s.store.invoices[id]) {
      JustifiedStays(s.chain, chain', s.why, id, s.store.invoices[id]);
    }
  }

  lemma CrashLocks(s: State, p: nat)
    requires LocksOk(s.threads, s.tables)
    ensures LocksOk(Survivors(s, p), s.tables - {p})
  {
    hide Critical;
    var threads, tables := Survivors(s, p), s.tables - {p};
    forall q: nat ensures TableOk(threads, q, TableOf(tables, q)) {
      assert TableOk(s.threads, q, TableOf(s.tables, q));
      assert TableOf(tables, q) == if q == p then Table(None, {}, map[]) else TableOf(s.tables, q);
    }
    forall t | t in threads ensures InsideOk(TableOf(tables, threads[t].proc), t, threads[t]) {
      assert InsideOk(TableOf(s.tables, s.threads[t].proc), t, s.threads[t]);
    }
  }

  /** A crash takes the winner and its notification together. */
  lemma CrashOnce(s: State, p: nat)
    requires AllOnce(s.store.invoices, s.threads, s.fired, s.unsent)
    ensures AllOnce(s.store.invoices, Survivors(s, p), s.fired, s.unsent + Dropped(s, p))
  {
    hide Fires;
    var threads, unsent := Survivors(s, p), s.unsent + Dropped(s, p);
    forall id ensures Once(s.store.invoices, threads, s.fired, unsent, id) {
      var all, left := Winners(s.threads, id), Winners(threads, id);
      assert Once(s.store.invoices, s.threads, s.fired, s.unsent, id);
      if id in Dropped(s, p) {
        var t :| t in s.threads && s.threads[t].proc == p && Winning(s.threads[t], id);
        AtMostOne(all, t);
        assert left <= all && t !in left;
        assert left == {};
      } else {
        assert left == all;
      }
    }
  }

  lemma AtMostOne(all: set<nat>, t: nat)
    requires t in all && |all| <= 1
    ensures all == {t}
  {
    assert |all - {t}| == 0;
  }

  lemma CrashKeeps(cfg: Config, s: State, e: Event)
    requires Inv(s) && e.Crash?
    ensures Inv(Step(cfg, s, e))
  {
    hide LocksOk, AllOnce, Indexed, Distinct, ThreadOk, AllJustified, FiredOk;
    CrashLocks(s, e.proc);
    CrashOnce(s, e.proc);
  }

  /** Whatever happens next, the invariant holds. */
  lemma StepKeeps(cfg: Config, s: State, e: Event)
    requires Inv(s) && Possible(s, e)
    ensures Inv(Step(cfg, s, e))
  {
    hide Inv, Next, Claim, Expire;
    match e
    case Spawn(_, _, _, _) => SpawnKeeps(cfg, s, e);
    case Mine(_, _) => MineKeeps(cfg, s, e);
    case Crash(_) => CrashKeeps(cfg, s, e);
    case Go(t, x) =>
      var pc := s.threads[t].pc;
      if IsLocal(pc) {
        LocalKeeps(cfg, s, t, x);
      } else if IsLockStep(pc) {
        LockKeeps(cfg, s, t, x);
      } else if pc.Claiming? {
        if Claim(s.store, pc.inv.id, pc.tx.hash, pc.at, x.ok).1.Done? {
          ClaimWon(cfg, s, t, x);
        } else {
          ClaimNotWon(cfg, s, t, x);
        }
      } else if pc.Expiring? {
        if Expire(s.store, pc.inv.id, x.ok).1.Done? {
          ExpireWon(cfg, s, t, x);
        } else {
          ExpireNotWon(cfg, s, t, x);
        }
      } else if pc.Inserting? {
        InsertKeeps(cfg, s, t, x);
      } else {
        FireKeeps(cfg, s, t, x);
      }
  }
}
