/** How far concurrent creators can overshoot the pending caps, which are checked
    before the insert and not with it. */
module Caps {
  import opened Store
  import opened Verifier
  import opened Protocol
  import opened Settlement
  import opened Preservation
  import opened Guarantees
  import opened Sums

  /** The server as a whole, or one receiving address. */
  datatype Scope = Everywhere | For(payTo: string)

  /** The smaller of two caps, where zero or less is no cap. */
  function Tightest(a: int, b: int): int {
    if a <= 0 then b else if b <= 0 || a < b then a else b
  }

  /** The cap that binds in a scope: one address is under the total cap as well. */
  function Cap(cfg: Config, scope: Scope): int {
    if scope.Everywhere? then cfg.maxPending else Tightest(cfg.maxPending, cfg.maxPendingPerAddr)
  }

  predicate Covers(scope: Scope, payTo: string) {
    scope.Everywhere? || scope.payTo == payTo
  }

  predicate Counted(inv: Invoice, scope: Scope) {
    inv.status == Pending && Covers(scope, inv.payTo)
  }

  function PendingIn(ledger: Ledger, scope: Scope): set<string> {
    set id | id in ledger && Counted(ledger[id], scope)
  }

  predicate Creating(th: Thread, scope: Scope) {
    th.job.CreateInvoice? && Covers(scope, th.job.payTo) && !th.pc.Finished?
  }

  /** Past the cap check and not yet inserted. */
  predicate Admitted(th: Thread, scope: Scope) {
    Creating(th, scope) && !th.pc.Counting?
  }

  function Creators(threads: map<nat, Thread>, scope: Scope): set<nat> {
    set t | t in threads && Creating(threads[t], scope)
  }

  function Committed(threads: map<nat, Thread>, scope: Scope): set<nat> {
    set t | t in threads && Admitted(threads[t], scope)
  }

  /** Pending invoices, and those that may still become so unchecked. */
  function Load(s: State, scope: Scope): nat {
    |PendingIn(s.store.invoices, scope)| + |Committed(s.threads, scope)|
  }

  // ---- Counting ----

  lemma CommittedMove(threads: map<nat, Thread>, t: nat, th: Thread, scope: Scope)
    requires t in threads
    ensures Committed(threads[t := th], scope)
      == if Admitted(th, scope) then Committed(threads, scope) + {t} else Committed(threads, scope) - {t}
    ensures t in Committed(threads, scope) <==> Admitted(threads[t], scope)
  {
    hide Admitted;
  }

  lemma CommittedCreate(threads: map<nat, Thread>, scope: Scope)
    ensures |Committed(threads, scope)| <= |Creators(threads, scope)|
  {
    SubsetSize(Committed(threads, scope), Creators(threads, scope));
  }

  lemma PendingMove(ledger: Ledger, id: string, inv: Invoice, scope: Scope)
    ensures PendingIn(ledger[id := inv], scope)
      == if Counted(inv, scope) then PendingIn(ledger, scope) + {id} else PendingIn(ledger, scope) - {id}
    ensures id in PendingIn(ledger, scope) <==> id in ledger && Counted(ledger[id], scope)
  {
    hide Counted;
  }

  /** The cap check: passed if no cap is set, and otherwise exactly when the pending
      invoices can be counted and are below each cap that is set. */
  lemma CountDecides(cfg: Config, s: State, t: nat, x: Input)
    requires t in s.threads && Typed(s.threads[t]) && s.threads[t].pc.Counting?
    ensures var ledger, payTo := s.store.invoices, s.threads[t].job.payTo;
      var total := |set id | id in ledger && ledger[id].status == Pending|;
      var forAddr := |set id | id in ledger && ledger[id].status == Pending && ledger[id].payTo == payTo|;
      var room := (cfg.maxPending <= 0 || total < cfg.maxPending) && (cfg.maxPendingPerAddr <= 0 || forAddr < cfg.maxPendingPerAddr);
      Next(cfg, s, t, x) == At(s, t,
        if cfg.maxPending <= 0 && cfg.maxPendingPerAddr <= 0 then Stamping
        else if !x.ok then Finished(InsertError)
        else if room then Stamping
        else Finished(TooMany))
  {
    var ledger, payTo := s.store.invoices, s.threads[t].job.payTo;
    assert PendingOf(ledger) == set id | id in ledger && ledger[id].status == Pending;
    assert PendingFor(ledger, payTo) == set id | id in ledger && ledger[id].status == Pending && ledger[id].payTo == payTo;
  }

  /** What the creator counts is what the scope holds. */
  lemma CountsAgree(cfg: Config, ledger: Ledger, payTo: string, scope: Scope)
    requires Covers(scope, payTo) && Cap(cfg, scope) > 0
    requires !OverCap(cfg, |PendingOf(ledger)|, |PendingFor(ledger, payTo)|)
    ensures |PendingIn(ledger, scope)| < Cap(cfg, scope)
  {
    if scope.Everywhere? {
      assert PendingIn(ledger, scope) == PendingOf(ledger);
    } else {
      assert PendingIn(ledger, scope) == PendingFor(ledger, payTo);
      SubsetSize(PendingFor(ledger, payTo), PendingOf(ledger));
    }
  }

  // ---- One step ----

  /** A thread that has not just passed the check does not add to the load. */
  lemma QuietLoad(s: State, s': State, t: nat, scope: Scope)
    requires t in s.threads && OnlyMoved(s, s', t) && s'.store.invoices == s.store.invoices
    requires Admitted(s'.threads[t], scope) ==> Admitted(s.threads[t], scope)
    ensures Load(s', scope) <= Load(s, scope)
  {
    hide Admitted, PendingIn, Committed;
    CommittedMove(s.threads, t, s'.threads[t], scope);
    SubsetSize(Committed(s'.threads, scope), Committed(s.threads, scope));
  }

  lemma CountLoad(cfg: Config, s: State, t: nat, x: Input, scope: Scope, n: nat)
    requires t in s.threads && Typed(s.threads[t]) && s.threads[t].pc.Counting? && Cap(cfg, scope) > 0
    requires Load(s, scope) < Cap(cfg, scope) + n
    requires |Creators(Next(cfg, s, t, x).threads, scope)| <= n
    ensures Load(Next(cfg, s, t, x), scope) < Cap(cfg, scope) + n
  {
    hide PendingIn, Committed, Creators;
    var s' := Next(cfg, s, t, x);
    if Admitted(s'.threads[t], scope) {
      CountsAgree(cfg, s.store.invoices, s.threads[t].job.payTo, scope);
      CommittedCreate(s'.threads, scope);
    } else {
      QuietLoad(s, s', t, scope);
    }
  }

  lemma InsertLoad(s: State, t: nat, x: Input, scope: Scope)
    requires Inv(s) && Enabled(s, t, x) && s.threads[t].pc.Inserting?
    ensures Load(InsertStep(s, t, x), scope) <= Load(s, scope)
  {
    hide PendingIn, Committed, LocksOk, AllOnce, Indexed, Distinct, ThreadsOk, AllJustified, FiredOk, Create, ThreadOk, OnlyMoved;
    var s', th := InsertStep(s, t, x), s.threads[t];
    var inv := Drawn(th.pc.draft, x.id, x.memo);
    InsertThread(s, t, x);
    InsertEffect(s.store, inv, x.ok);
    CommittedMove(s.threads, t, s'.threads[t], scope);
    if Create(s.store, inv, x.ok).1.Done? {
      PendingMove(s.store.invoices, inv.id, inv, scope);
    } else {
      SubsetSize(Committed(s'.threads, scope), Committed(s.threads, scope));
    }
  }

  lemma ClaimLoad(cfg: Config, s: State, t: nat, ok: bool, scope: Scope)
    requires t in s.threads && Typed(s.threads[t]) && s.threads[t].pc.Claiming?
    ensures Load(ClaimStep(cfg, s, t, ok), scope) <= Load(s, scope)
  {
    hide PendingIn, Committed, Claim, OnlyMoved;
    var s', pc := ClaimStep(cfg, s, t, ok), s.threads[t].pc;
    var op := ClaimOp(pc.inv.id, pc.tx.hash, pc.at);
    MoveEffect(s.store, op, ok);
    CommittedMove(s.threads, t, s'.threads[t], scope);
    SubsetSize(Committed(s'.threads, scope), Committed(s.threads, scope));
    if Claim(s.store, pc.inv.id, pc.tx.hash, pc.at, ok).1.Done? {
      PendingMove(s.store.invoices, op.id, Moved(s.store.invoices[op.id], op), scope);
      SubsetSize(PendingIn(s'.store.invoices, scope), PendingIn(s.store.invoices, scope));
    }
  }

  lemma ExpireLoad(s: State, t: nat, ok: bool, scope: Scope)
    requires t in s.threads && Typed(s.threads[t]) && s.threads[t].pc.Expiring?
    ensures Load(ExpireStep(s, t, ok), scope) <= Load(s, scope)
  {
    hide PendingIn, Committed, Expire, OnlyMoved;
    var s', pc := ExpireStep(s, t, ok), s.threads[t].pc;
    var op := ExpireOp(pc.inv.id);
    MoveEffect(s.store, op, ok);
    CommittedMove(s.threads, t, s'.threads[t], scope);
    SubsetSize(Committed(s'.threads, scope), Committed(s.threads, scope));
    if Expire(s.store, pc.inv.id, ok).1.Done? {
      PendingMove(s.store.invoices, op.id, Moved(s.store.invoices[op.id], op), scope);
      SubsetSize(PendingIn(s'.store.invoices, scope), PendingIn(s.store.invoices, scope));
    }
  }

  /** Nothing but the check admits a creator. */
  lemma OtherLoad(cfg: Config, s: State, t: nat, x: Input, scope: Scope)
    requires t in s.threads && Typed(s.threads[t])
    requires var pc := s.threads[t].pc; !pc.Finished? && !pc.Counting? && !pc.Claiming? && !pc.Expiring? && !pc.Inserting?
    ensures Load(Next(cfg, s, t, x), scope) <= Load(s, scope)
  {
    hide LocalNext, LockStep, Load;
    StoreUntouched(cfg, s, t, x);
    QuietLoad(s, Next(cfg, s, t, x), t, scope);
  }

  lemma GoLoad(cfg: Config, s: State, t: nat, x: Input, scope: Scope, n: nat)
    requires Inv(s) && Enabled(s, t, x) && Cap(cfg, scope) > 0
    requires Load(s, scope) < Cap(cfg, scope) + n
    requires |Creators(Next(cfg, s, t, x).threads, scope)| <= n
    ensures Load(Next(cfg, s, t, x), scope) < Cap(cfg, scope) + n
  {
    hide Inv, Load, Creators, LocalNext, LockStep, ClaimStep, ExpireStep, InsertStep, OnlyMoved, Honest, Cap;
    var pc := s.threads[t].pc;
    if pc.Counting? {
      CountLoad(cfg, s, t, x, scope, n);
    } else if pc.Claiming? {
      ClaimLoad(cfg, s, t, x.ok, scope);
    } else if pc.Expiring? {
      ExpireLoad(s, t, x.ok, scope);
    } else if pc.Inserting? {
      InsertLoad(s, t, x, scope);
    } else {
      OtherLoad(cfg, s, t, x, scope);
    }
  }

  lemma ElsewhereLoad(cfg: Config, s: State, e: Event, scope: Scope)
    requires Possible(s, e) && !e.Go?
    ensures Load(Step(cfg, s, e), scope) <= Load(s, scope)
  {
    var s' := Step(cfg, s, e);
    SubsetSize(Committed(s'.threads, scope), Committed(s.threads, scope));
  }

  /** With at most n creators at a time, the pending invoices and the creators about
      to add one stay below the cap plus n: in total, and for each address counting
      the creators for that address. With one creator the cap is exact. */
  lemma {:induction false} CapBound(cfg: Config, states: seq<State>, events: seq<Event>, i: nat, scope: Scope, n: nat)
    requires IsRun(cfg, states, events) && i < |states| && Cap(cfg, scope) > 0 && n >= 1
    requires forall k :: 0 <= k <= i ==> |Creators(states[k].threads, scope)| <= n
    ensures |PendingIn(states[i].store.invoices, scope)| + |Committed(states[i].threads, scope)| <= Cap(cfg, scope) - 1 + n
  {
    hide Inv, Step, Possible, Follows, Creators, Cap, PendingIn, Committed;
    if i == 0 {
      EmptyLoad(states[0], scope);
    } else {
      CapBound(cfg, states, events, i - 1, scope, n);
      RunInv(cfg, states, events, i - 1);
      var s, e := states[i - 1], events[i - 1];
      OneStep(cfg, states, events, i - 1);
      if e.Go? {
        GoEventLoad(cfg, s, e, scope, n);
      } else {
        ElsewhereLoad(cfg, s, e, scope);
      }
    }
  }

  lemma GoEventLoad(cfg: Config, s: State, e: Event, scope: Scope, n: nat)
    requires Inv(s) && Possible(s, e) && e.Go? && Cap(cfg, scope) > 0
    requires Load(s, scope) < Cap(cfg, scope) + n
    requires |Creators(Step(cfg, s, e).threads, scope)| <= n
    ensures Load(Step(cfg, s, e), scope) < Cap(cfg, scope) + n
  {
    hide Inv, Load, Creators, Next, Cap;
    GoLoad(cfg, s, e.t, e.input, scope, n);
  }

  lemma EmptyLoad(s: State, scope: Scope)
    requires exists durable :: s == Init(durable)
    ensures Load(s, scope) == 0
  {
    assert PendingIn(map[], scope) == {} && Committed(map[], scope) == {};
  }
}
