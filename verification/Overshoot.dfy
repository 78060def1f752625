/** The pending caps are exact for one creator and for no more: the bound of Caps is
    reached for every cap, every scope and every number of creators. */
module Overshoot {
  import opened GoText
  import opened Store
  import opened Protocol
  import opened Outcomes
  import opened Caps
  import opened Reach
  import opened FreshAddress
  import opened Sums

  /** At most n creators at a time in the scope, each for an address the service
      accepts. */
  ghost function AtMost(setup: Setup, scope: Scope, n: nat): Callers {
    Callers((iset p | Accepts(setup, p)), scope, Some(n))
  }

  /** Some creators wait to insert what they were asked for, and k invoices are there,
      all pending and in the scope. */
  ghost predicate Poised(setup: Setup, s: State, scope: Scope, n: nat, k: nat, ids: set<nat>) {
    && Reaches(setup.limits, s, AtMost(setup, scope, n))
    && Creators(s.threads, scope) == ids
    && (forall t :: t in ids ==> AtInsert(setup.limits, s.threads, t))
    && |s.store.invoices| == k && AllPending(s.store.invoices, scope)
    && !s.store.durable
  }

  predicate AllPending(ledger: Ledger, scope: Scope) {
    forall id :: id in ledger ==> Counted(ledger[id], scope)
  }

  lemma AllPendingCounts(ledger: Ledger, scope: Scope)
    requires AllPending(ledger, scope)
    ensures PendingIn(ledger, scope) == PendingOf(ledger) == ledger.Keys && |PendingOf(ledger)| == |ledger|
  {
  }

  ghost predicate AtInsert(cfg: Config, threads: map<nat, Thread>, t: nat) {
    t in threads && threads[t].job.CreateInvoice? && threads[t].pc == Inserting(Draft(cfg, threads[t].job, 0), 0)
  }

  function PayTos(ledger: Ledger): set<string> {
    set id | id in ledger :: ledger[id].payTo
  }

  lemma {:induction false} FewPayTos(ledger: Ledger)
    ensures |PayTos(ledger)| <= |ledger|
    decreases ledger
  {
    if ledger == map[] {
      assert PayTos(ledger) == {};
    } else {
      var id :| id in ledger;
      var rest := ledger - {id};
      FewPayTos(rest);
      assert PayTos(ledger) == PayTos(rest) + {ledger[id].payTo};
    }
  }

  /** A request in the scope, for an accepted address that the caps leave room for. */
  ghost function Request(setup: Setup, ledger: Ledger, scope: Scope): (job: Job)
    requires |ledger| < INT64_LIMIT && (scope.For? ==> Accepts(setup, scope.payTo))
    ensures job.CreateInvoice? && job.amountNano > 0 && Covers(scope, job.payTo) && Accepts(setup, job.payTo)
    ensures scope.Everywhere? ==> job.payTo !in PayTos(ledger)
    ensures scope.For? ==> job.payTo == scope.payTo
  {
    FewPayTos(ledger);
    CreateInvoice(if scope.Everywhere? then Fresh(setup, PayTos(ledger)) else scope.payTo, 1, 0, map[])
  }

  lemma RoomLeft(setup: Setup, ledger: Ledger, scope: Scope, payTo: string)
    requires AllPending(ledger, scope) && |ledger| < Cap(setup.limits, scope)
    requires if scope.Everywhere? then payTo !in PayTos(ledger) else payTo == scope.payTo
    ensures !OverCap(setup.limits, |PendingOf(ledger)|, |PendingFor(ledger, payTo)|)
  {
    AllPendingCounts(ledger, scope);
    if scope.Everywhere? {
      assert forall id :: id in ledger ==> ledger[id].payTo in PayTos(ledger);
      assert PendingFor(ledger, payTo) == {};
    } else {
      assert PendingFor(ledger, payTo) == PendingIn(ledger, scope);
    }
  }

  lemma CreatorsMove(threads: map<nat, Thread>, t: nat, th: Thread, scope: Scope)
    ensures Creators(threads[t := th], scope)
      == if Creating(th, scope) then Creators(threads, scope) + {t} else Creators(threads, scope) - {t}
  {
    hide Creating;
  }

  lemma AdmitSteps(cfg: Config, s: State, t: nat, job: Job, x: Input)
    requires t !in s.threads && job.CreateInvoice? && job.payTo != "" && job.amountNano > 0
    requires x.ok && x.now == 0
    requires !OverCap(cfg, |PendingOf(s.store.invoices)|, |PendingFor(s.store.invoices, job.payTo)|)
    ensures var th := Thread(0, job, 0, Counting);
      var s1 := s.(threads := s.threads[t := th]);
      var s2 := s.(threads := s.threads[t := th.(pc := Stamping)]);
      var s3 := s.(threads := s.threads[t := th.(pc := Inserting(Draft(cfg, job, 0), 0))]);
      && Possible(s, Spawn(t, 0, job, 0)) && Step(cfg, s, Spawn(t, 0, job, 0)) == s1
      && Enabled(s1, t, x) && Next(cfg, s1, t, x) == s2
      && Enabled(s2, t, x) && Next(cfg, s2, t, x) == s3
  {
    hide PendingOf, PendingFor, OverCap, Draft;
  }

  lemma AdmitThreads(cfg: Config, threads: map<nat, Thread>, scope: Scope, ids: set<nat>, t: nat, th: Thread)
    requires Creators(threads, scope) == ids && t !in threads && Creating(th, scope)
    requires forall u :: u in ids ==> AtInsert(cfg, threads, u)
    ensures Creators(threads[t := th], scope) == ids + {t} && |ids + {t}| == |ids| + 1
    ensures forall u :: u in ids ==> AtInsert(cfg, threads[t := th], u)
  {
    hide Creating;
    CreatorsMove(threads, t, th, scope);
    assert t !in ids;
    forall u | u in ids ensures AtInsert(cfg, threads[t := th], u) {
      assert AtInsert(cfg, threads, u);
    }
  }

  lemma AdmitReaches(setup: Setup, s: State, scope: Scope, n: nat, ids: set<nat>, t: nat, job: Job)
    requires Reaches(setup.limits, s, AtMost(setup, scope, n)) && Creators(s.threads, scope) == ids && |ids| < n && t !in s.threads
    requires job.CreateInvoice? && Accepts(setup, job.payTo) && job.amountNano > 0 && Covers(scope, job.payTo)
    requires forall u :: u in ids ==> AtInsert(setup.limits, s.threads, u)
    requires !OverCap(setup.limits, |PendingOf(s.store.invoices)|, |PendingFor(s.store.invoices, job.payTo)|)
    ensures Reaches(setup.limits,
      s.(threads := s.threads[t := Thread(0, job, 0, Inserting(Draft(setup.limits, job, 0), 0))]), AtMost(setup, scope, n))
  {
    hide Reaches, Creators, Next, Enabled, PendingOf, Draft, OverCap, AtInsert, Accepts;
    var cfg, callers := setup.limits, AtMost(setup, scope, n);
    var th, x := Thread(0, job, 0, Counting), Input(true, None, 0, "", "");
    AcceptedNonempty(setup, job.payTo);
    AdmitSteps(cfg, s, t, job, x);
    AdmitThreads(cfg, s.threads, scope, ids, t, th);
    AdmitThreads(cfg, s.threads, scope, ids, t, th.(pc := Stamping));
    AdmitThreads(cfg, s.threads, scope, ids, t, th.(pc := Inserting(Draft(cfg, job, 0), 0)));
    ReachesNext(cfg, s, Spawn(t, 0, job, 0), callers);
    var s1 := Step(cfg, s, Spawn(t, 0, job, 0));
    GoReaches(cfg, s1, t, x, callers);
    GoReaches(cfg, Next(cfg, s1, t, x), t, x, callers);
  }

  lemma AcceptedNonempty(setup: Setup, payTo: string)
    requires Accepts(setup, payTo)
    ensures payTo != ""
  {
    hide Receiver;
  }

  lemma ItsInsert(cfg: Config, threads: map<nat, Thread>, t: nat)
    requires t in threads && threads[t].job.CreateInvoice?
    requires threads[t].pc == Inserting(Draft(cfg, threads[t].job, 0), 0)
    ensures AtInsert(cfg, threads, t)
  {
  }

  /** A creator comes, passes the check and stops before its insert. */
  lemma Admit(setup: Setup, s: State, scope: Scope, n: nat, k: nat, ids: set<nat>) returns (s': State, t: nat)
    requires Poised(setup, s, scope, n, k, ids) && k < Cap(setup.limits, scope) <= INT64_LIMIT && |ids| < n
    requires scope.For? ==> Accepts(setup, scope.payTo)
    ensures t !in ids && Poised(setup, s', scope, n, k, ids + {t})
  {
    hide Reaches, Creators, AllPending, Draft, Cap, OverCap, Request, AtInsert, Accepts, PendingOf;
    t := Above(s.threads.Keys);
    var job := Request(setup, s.store.invoices, scope);
    var th := Thread(0, job, 0, Inserting(Draft(setup.limits, job, 0), 0));
    RoomLeft(setup, s.store.invoices, scope, job.payTo);
    AdmitReaches(setup, s, scope, n, ids, t, job);
    AdmitThreads(setup.limits, s.threads, scope, ids, t, th);
    s' := s.(threads := s.threads[t := th]);
    ItsInsert(setup.limits, s'.threads, t);
  }

  /** An id and a memo that nothing in the store has. */
  ghost function Unused(m: Mem): (x: Input)
    ensures x.ok && x.id !in m.invoices && (forall payTo :: MemoKey(payTo, x.memo) !in m.memos)
  {
    var memo := Longer(m.memos.Keys);
    assert forall payTo :: |MemoKey(payTo, memo)| > |memo|;
    assert forall id :: id in m.invoices.Keys ==> |id| < |Longer(m.invoices.Keys)|;
    Input(true, None, 0, Longer(m.invoices.Keys), memo)
  }

  lemma InsertSteps(cfg: Config, s: State, t: nat, x: Input)
    requires AtInsert(cfg, s.threads, t) && !s.store.durable
    requires x.ok && x.id !in s.store.invoices && MemoKey(s.threads[t].job.payTo, x.memo) !in s.store.memos
    ensures Enabled(s, t, x)
    ensures var s', inv := Next(cfg, s, t, x), Drawn(Draft(cfg, s.threads[t].job, 0), x.id, x.memo);
      && s'.store.invoices == s.store.invoices[x.id := inv] && !s'.store.durable
      && s'.threads == s.threads[t := s.threads[t].(pc := Finished(Replied(inv)))]
      && inv.id == x.id && inv.status == Pending && inv.payTo == s.threads[t].job.payTo
  {
    hide MemoKey, OnlyMoved;
  }

  lemma OneFewer(cfg: Config, threads: map<nat, Thread>, scope: Scope, ids: set<nat>, t: nat, th: Thread)
    requires Creators(threads, scope) == ids && t in ids && !Creating(th, scope)
    requires forall u :: u in ids ==> AtInsert(cfg, threads, u)
    ensures Creators(threads[t := th], scope) == ids - {t} && |ids - {t}| <= |ids|
    ensures forall u :: u in ids - {t} ==> AtInsert(cfg, threads[t := th], u)
  {
    hide Creating, AtInsert;
    CreatorsMove(threads, t, th, scope);
    SubsetSize(ids - {t}, ids);
    forall u | u in ids - {t} ensures AtInsert(cfg, threads[t := th], u) {
      StillAtInsert(cfg, threads, t, th, u);
    }
  }

  lemma Ready(s: State, t: nat, x: Input)
    requires Enabled(s, t, x)
    ensures t in s.threads && Typed(s.threads[t]) && !s.threads[t].pc.Finished?
  {
    hide Typed;
  }

  /** A creator inserts what it waited with. */
  lemma Complete(setup: Setup, s: State, scope: Scope, n: nat, k: nat, ids: set<nat>, t: nat) returns (s': State)
    requires Poised(setup, s, scope, n, k, ids) && t in ids && |ids| <= n
    ensures Poised(setup, s', scope, n, k + 1, ids - {t})
  {
    hide Reaches, Creators, Next, Enabled, Typed, AllPending, Draft, Drawn, Accepts, AtInsert, MemoKey;
    var x := Unused(s.store);
    CreatorCovered(s.threads, scope, t);
    InsertSteps(setup.limits, s, t, x);
    Ready(s, t, x);
    s' := Next(setup.limits, s, t, x);
    OneFewer(setup.limits, s.threads, scope, ids, t, s'.threads[t]);
    GoReaches(setup.limits, s, t, x, AtMost(setup, scope, n));
    InsertPending(s.store.invoices, scope, s'.store.invoices[x.id]);
  }

  lemma StillAtInsert(cfg: Config, threads: map<nat, Thread>, t: nat, th: Thread, u: nat)
    requires AtInsert(cfg, threads, u) && u != t
    ensures AtInsert(cfg, threads[t := th], u)
  {
  }

  lemma CreatorCovered(threads: map<nat, Thread>, scope: Scope, t: nat)
    requires t in Creators(threads, scope)
    ensures t in threads && Creating(threads[t], scope)
  {
  }

  lemma InsertPending(ledger: Ledger, scope: Scope, inv: Invoice)
    requires inv.id !in ledger && Counted(inv, scope) && AllPending(ledger, scope)
    ensures AllPending(ledger[inv.id := inv], scope) && |ledger[inv.id := inv]| == |ledger| + 1
  {
  }

  /** Creators that come and go one at a time fill a scope up to its cap. */
  lemma {:induction false} Fill(setup: Setup, scope: Scope, n: nat, k: nat) returns (s: State)
    requires k < Cap(setup.limits, scope) <= INT64_LIMIT && n >= 1 && (scope.For? ==> Accepts(setup, scope.payTo))
    ensures Poised(setup, s, scope, n, k, {})
  {
    hide Poised, Cap, Accepts;
    if k == 0 {
      s := Init(false);
      EmptyPoised(setup, scope, n);
    } else {
      var t;
      s := Fill(setup, scope, n, k - 1);
      s, t := Admit(setup, s, scope, n, k - 1, {});
      assert {} + {t} == {t} && |{t}| == 1;
      s := Complete(setup, s, scope, n, k - 1, {t}, t);
      assert {t} - {t} == {};
    }
  }

  lemma EmptyPoised(setup: Setup, scope: Scope, n: nat)
    ensures Poised(setup, Init(false), scope, n, 0, {})
  {
    hide Reaches, Accepts;
    StartReaches(setup.limits, AtMost(setup, scope, n));
    assert Creators(map[], scope) == {};
  }

  /** Below the cap, any number of creators pass the check before one of them inserts. */
  lemma {:induction false} Gather(setup: Setup, scope: Scope, n: nat, k: nat, j: nat) returns (s: State, ids: set<nat>)
    requires k < Cap(setup.limits, scope) <= INT64_LIMIT && j <= n && n >= 1 && (scope.For? ==> Accepts(setup, scope.payTo))
    ensures Poised(setup, s, scope, n, k, ids) && |ids| == j
  {
    hide Poised, Cap, Accepts;
    if j == 0 {
      s := Fill(setup, scope, n, k);
      ids := {};
    } else {
      var t;
      s, ids := Gather(setup, scope, n, k, j - 1);
      s, t := Admit(setup, s, scope, n, k, ids);
      ids := ids + {t};
    }
  }

  lemma {:induction false} Release(setup: Setup, s: State, scope: Scope, n: nat, k: nat, ids: set<nat>) returns (s': State)
    requires Poised(setup, s, scope, n, k, ids) && |ids| <= n
    ensures Poised(setup, s', scope, n, k + |ids|, {})
    decreases ids
  {
    hide Poised;
    s' := s;
    if ids != {} {
      var t :| t in ids;
      s' := Complete(setup, s, scope, n, k, ids, t);
      s' := Release(setup, s', scope, n, k + 1, ids - {t});
    }
  }

  /** For every cap that fits the code's integers, every scope and every number of
      creators, some run ends with as many pending invoices as the bound allows. */
  lemma CapReached(setup: Setup, scope: Scope, n: nat)
    requires 0 < Cap(setup.limits, scope) < INT64_LIMIT && n >= 1 && (scope.For? ==> Accepts(setup, scope.payTo))
    ensures exists s ::
      Reaches(setup.limits, s, AtMost(setup, scope, n)) && |PendingIn(s.store.invoices, scope)| == Cap(setup.limits, scope) - 1 + n
  {
    hide Reaches, Creators, PendingIn, PendingOf, AllPending, Cap, Accepts;
    var k := Cap(setup.limits, scope) - 1;
    var s, ids := Gather(setup, scope, n, k, n);
    s := Release(setup, s, scope, n, k, ids);
    AllPendingCounts(s.store.invoices, scope);
  }

  /** So a cap holds in every run with at most n creators at a time exactly when n is
      one. */
  lemma CapExact(setup: Setup, scope: Scope, n: nat)
    requires 0 < Cap(setup.limits, scope) < INT64_LIMIT && n >= 1 && (scope.For? ==> Accepts(setup, scope.payTo))
    ensures (forall s :: Reaches(setup.limits, s, AtMost(setup, scope, n)) ==>
        |PendingIn(s.store.invoices, scope)| <= Cap(setup.limits, scope)) <==> n == 1
  {
    hide Reaches, PendingIn, Cap, Accepts;
    if n == 1 {
      forall s | Reaches(setup.limits, s, AtMost(setup, scope, n))
        ensures |PendingIn(s.store.invoices, scope)| <= Cap(setup.limits, scope)
      {
        ReachedBound(setup, s, scope, n);
      }
    } else {
      CapReached(setup, scope, n);
    }
  }

  lemma ReachedBound(setup: Setup, s: State, scope: Scope, n: nat)
    requires Cap(setup.limits, scope) > 0 && n >= 1 && Reaches(setup.limits, s, AtMost(setup, scope, n))
    ensures |PendingIn(s.store.invoices, scope)| <= Cap(setup.limits, scope) - 1 + n
  {
    hide Creators, PendingIn, Cap, IsRun, Committed, Obeys, Accepts;
    var callers := AtMost(setup, scope, n);
    var states, events :|
      RunOf(setup.limits, states, events, callers) && |states| == |events| + 1 && states[|events|] == s;
    assert forall k :: 0 <= k < |states| ==> Within(states[k], callers);
    CapBound(setup.limits, states, events, |events|, scope, n);
  }
}
