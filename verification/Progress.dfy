/** Deadlock freedom and termination of the settlement protocol. */
module Progress {
  import opened GoText
  import opened Store
  import opened Verifier
  import opened Protocol
  import opened Settlement
  import opened Preservation
  import opened Guarantees
  import opened Sums

  // ---- Deadlock freedom ----

  predicate Unfinished(s: State, t: nat) {
    t in s.threads && !s.threads[t].pc.Finished?
  }

  ghost predicate CanStep(s: State, t: nat) {
    exists x :: Enabled(s, t, x)
  }

  predicate Waiting(pc: Pc) {
    pc.WantTable? || pc.WantKey?
  }

  /** Only the two lock operations can block: an honest node can always answer, the
      clock can always advance and a fresh id can always be drawn. */
  lemma NeverBlocked(s: State, t: nat)
    requires Inv(s) && Unfinished(s, t) && !Waiting(s.threads[t].pc)
    ensures CanStep(s, t)
  {
    hide LocksOk, AllOnce, AllJustified, FiredOk, Indexed, Distinct, ThreadOk;
    AThread(s, t);
    var x := Input(true, None, s.threads[t].started, Longer(s.store.invoices.Keys), "");
    assert Typed(s.threads[t]) by { ItsTyped(s.store.invoices, s.chain, s.threads[t]); }
    assert x.id !in s.store.invoices;
    assert Enabled(s, t, x);
  }

  lemma ItsTyped(ledger: Ledger, chain: Chain, th: Thread)
    requires ThreadOk(ledger, chain, th)
    ensures Typed(th)
  {
  }

  /** Who an unfinished thread waits for: itself, or the holder of the lock it wants. */
  ghost function Blocker(s: State, t: nat): nat
    requires t in s.threads
  {
    var th := s.threads[t];
    var table := TableOf(s.tables, th.proc);
    if th.pc.WantTable? && table.holder.Some? then table.holder.value
    else if th.pc.WantKey? && th.pc.inv.id in table.held then table.held[th.pc.inv.id]
    else t
  }

  /** In every reachable state each unfinished thread can step, or the thread of its
      own process that holds the lock it waits for can: nothing ever deadlocks. */
  lemma DeadlockFree(cfg: Config, states: seq<State>, events: seq<Event>, i: nat, t: nat)
    requires IsRun(cfg, states, events) && i < |states| && Unfinished(states[i], t)
    ensures var u := Blocker(states[i], t);
      && Unfinished(states[i], u) && CanStep(states[i], u) && states[i].threads[u].proc == states[i].threads[t].proc
      && (u != t ==> states[i].threads[u].pc.InTable? || Critical(states[i].threads[u]))
  {
    hide IsRun, AllOnce, AllJustified, FiredOk, Indexed, Distinct, ThreadsOk, TableOf, CheckOk, CreateOk;
    RunInv(cfg, states, events, i);
    var s := states[i];
    var u, p := Blocker(s, t), s.threads[t].proc;
    assert TableOk(s.threads, p, TableOf(s.tables, p));
    if u != t {
      NeverBlocked(s, u);
    } else if !Waiting(s.threads[t].pc) {
      NeverBlocked(s, t);
    } else {
      AThread(s, t);
      Free(s, t);
    }
  }

  lemma Free(s: State, t: nat)
    requires t in s.threads && Typed(s.threads[t]) && Waiting(s.threads[t].pc)
    requires var th := s.threads[t];
      var table := TableOf(s.tables, th.proc);
      if th.pc.WantTable? then table.holder.None? else th.pc.inv.id !in table.held
    ensures CanStep(s, t)
  {
    assert Enabled(s, t, Input(true, None, 0, "", ""));
  }

  // ---- Termination ----

  /** A bound on the steps a thread has left. */
  function Rank(pc: Pc): int {
    match pc
    case Reading => 10
    case Verifying(_) => 9
    case WantTable(_, _) => 8
    case InTable(_, _) => 7
    case WantKey(_, _) => 6
    case Rereading(_, _) => 5
    case Settling(_, _) => 4
    case Claiming(_, _, _) => 3
    case LostClaim(_) => 2
    case Firing(_) => 2
    case Unlocking(_) => 1
    case Timing(_, _) => 3
    case Expiring(_, _, _) => 2
    case LostExpiry(_) => 1
    case Counting => 7
    case Stamping => 6
    case Inserting(_, attempt) => ATTEMPTS - attempt
    case Finished(_) => 0
  }

  ghost function Ranks(threads: map<nat, Thread>): map<nat, int> {
    map t | t in threads :: Rank(threads[t].pc)
  }

  ghost function Work(s: State): int {
    Total(Ranks(s.threads))
  }

  lemma RankPositive(ledger: Ledger, chain: Chain, th: Thread)
    requires ThreadOk(ledger, chain, th)
    ensures Rank(th.pc) >= 0 && (th.pc.Finished? <==> Rank(th.pc) == 0)
  {
  }

  lemma WorkPositive(s: State)
    requires Inv(s)
    ensures Work(s) >= 0
  {
    hide LocksOk, AllOnce, AllJustified, FiredOk, Indexed, Distinct, ThreadOk, Rank;
    forall t | t in s.threads ensures Rank(s.threads[t].pc) >= 0 {
      RankPositive(s.store.invoices, s.chain, s.threads[t]);
    }
    TotalBounds(Ranks(s.threads));
  }

  lemma LocalRankFalls(cfg: Config, m: Mem, th: Thread, x: Input)
    requires IsLocal(th.pc) && Typed(th)
    ensures Rank(LocalNext(cfg, m, th, x)) < Rank(th.pc)
  {
    hide Get, Judge, Draft, OverCap, Overdue;
  }

  lemma ClaimRankFalls(cfg: Config, s: State, t: nat, ok: bool)
    requires t in s.threads && s.threads[t].pc.Claiming?
    ensures Rank(ClaimStep(cfg, s, t, ok).threads[t].pc) < Rank(s.threads[t].pc)
  {
    hide Claim;
  }

  lemma ExpireRankFalls(s: State, t: nat, ok: bool)
    requires t in s.threads && s.threads[t].pc.Expiring?
    ensures Rank(ExpireStep(s, t, ok).threads[t].pc) < Rank(s.threads[t].pc)
  {
    hide Expire;
  }

  lemma InsertRankFalls(s: State, t: nat, x: Input)
    requires t in s.threads && s.threads[t].pc.Inserting? && s.threads[t].pc.attempt < ATTEMPTS
    ensures Rank(InsertStep(s, t, x).threads[t].pc) < Rank(s.threads[t].pc)
  {
    hide Create, KeyOf, OnlyMoved;
    var pc, s' := s.threads[t].pc, InsertStep(s, t, x);
    var outcome := Create(s.store, Drawn(pc.draft, x.id, x.memo), x.ok).1;
    var pc' := s'.threads[t].pc;
    if outcome.Refused? && pc.attempt + 1 < ATTEMPTS {
      assert pc' == Inserting(pc.draft, pc.attempt + 1);
    } else {
      assert pc'.Finished?;
    }
  }

  lemma LockRankFalls(s: State, t: nat)
    requires t in s.threads && Typed(s.threads[t]) && IsLockStep(s.threads[t].pc)
    ensures Rank(LockStep(s, t).threads[t].pc) < Rank(s.threads[t].pc)
  {
    hide TableOf;
  }

  /** A step lowers the rank of its thread. */
  lemma RankFalls(cfg: Config, s: State, t: nat, x: Input)
    requires t in s.threads && Typed(s.threads[t]) && !s.threads[t].pc.Finished?
    requires s.threads[t].pc.Inserting? ==> s.threads[t].pc.attempt < ATTEMPTS
    ensures Rank(Next(cfg, s, t, x).threads[t].pc) < Rank(s.threads[t].pc)
  {
    hide LocalNext, LockStep, ClaimStep, ExpireStep, InsertStep;
    var pc := s.threads[t].pc;
    if IsLocal(pc) {
      LocalRankFalls(cfg, s.store, s.threads[t], x);
    } else if pc.Claiming? {
      ClaimRankFalls(cfg, s, t, x.ok);
    } else if pc.Expiring? {
      ExpireRankFalls(s, t, x.ok);
    } else if pc.Inserting? {
      InsertRankFalls(s, t, x);
    } else if !pc.Firing? {
      LockRankFalls(s, t);
    }
  }

  lemma WorkFalls(cfg: Config, s: State, t: nat, x: Input)
    requires Inv(s) && Enabled(s, t, x)
    ensures Work(Next(cfg, s, t, x)) < Work(s)
  {
    hide LocksOk, AllOnce, AllJustified, FiredOk, Indexed, Distinct, CheckOk, Next, Rank, Total;
    AThread(s, t);
    RankFalls(cfg, s, t, x);
    var a, b := Ranks(s.threads), Ranks(Next(cfg, s, t, x).threads);
    TotalRemove(a, t);
    TotalRemove(b, t);
    assert a - {t} == b - {t};
  }

  /** Steps taken by threads, and calls begun. */
  function Steps(events: seq<Event>): nat {
    if events == [] then 0 else Steps(events[..|events| - 1]) + if events[|events| - 1].Go? then 1 else 0
  }

  function Calls(events: seq<Event>): nat {
    if events == [] then 0 else Calls(events[..|events| - 1]) + if events[|events| - 1].Spawn? then 1 else 0
  }

  lemma WorkElsewhere(cfg: Config, s: State, e: Event)
    requires Inv(s) && Possible(s, e) && !e.Go?
    ensures Work(Step(cfg, s, e)) <= Work(s) + if e.Spawn? then 10 else 0
  {
    hide LocksOk, AllOnce, AllJustified, FiredOk, Indexed, Distinct, ThreadOk, Rank, Total;
    var s' := Step(cfg, s, e);
    var a, b := Ranks(s.threads), Ranks(s'.threads);
    if e.Spawn? {
      TotalRemove(b, e.t);
      StartRank(e.job);
      assert b - {e.t} == a;
    } else if e.Crash? {
      forall t | t in s.threads ensures Rank(s.threads[t].pc) >= 0 {
        RankPositive(s.store.invoices, s.chain, s.threads[t]);
      }
      TotalSubset(b, a);
    } else {
      assert b == a;
    }
  }

  lemma StartRank(job: Job)
    ensures Rank(StartPc(job)) <= 10
  {
  }

  /** However threads are scheduled, whatever fails and however long they wait for one
      another, all the calls begun together take at most ten steps each. */
  lemma {:induction false} Terminates(cfg: Config, states: seq<State>, events: seq<Event>)
    requires IsRun(cfg, states, events)
    ensures 0 <= Steps(events) <= 10 * Calls(events) - Work(states[|events|])
    ensures Work(states[|events|]) >= 0
  {
    hide Inv, Step, Possible, Follows, Work;
    var n := |events|;
    RunInv(cfg, states, events, n);
    WorkPositive(states[n]);
    if n == 0 {
      NoWork(states[0]);
    } else {
      Terminates(cfg, states[..n], events[..n - 1]);
      RunInv(cfg, states, events, n - 1);
      var s, e := states[n - 1], events[n - 1];
      OneStep(cfg, states, events, n - 1);
      if e.Go? {
        GoWork(cfg, s, e);
      } else {
        WorkElsewhere(cfg, s, e);
      }
    }
  }

  lemma GoWork(cfg: Config, s: State, e: Event)
    requires Inv(s) && Possible(s, e) && e.Go?
    ensures Work(Step(cfg, s, e)) < Work(s)
  {
    hide Inv, Work, Next;
    WorkFalls(cfg, s, e.t, e.input);
  }

  lemma NoWork(s: State)
    requires exists durable :: s == Init(durable)
    ensures Work(s) == 0
  {
    assert Ranks(s.threads) == map[];
  }
}
