/** One tick of internal/poller/poller.go beside everything else that runs: a loop
    that takes a slot of a semaphore for each pending invoice and starts a worker
    that checks it, and a wait group that the tick waits on. */
module Poller {
  import opened GoText
  import opened Store
  import opened Verifier
  import opened Protocol
  import opened Settlement
  import opened Preservation
  import opened Guarantees
  import opened Sums

  /** A goroutine of the tick; t is the thread that makes its call of CheckStatus. */
  datatype Worker = Ready | Running(t: nat) | Freeing(t: nat) | Leaving(t: nat) | Gone(t: nat)

  datatype Phase = Looping | Launching | Draining(cancelled: bool) | Returned(cancelled: bool)

  datatype Tick = Tick(
    snapshot: seq<Invoice>, begun: int, proc: nat, concurrency: nat,
    next: nat, slots: nat, waiting: nat, workers: map<nat, Worker>, phase: Phase, ctxDone: bool)

  datatype TickEvent =
    | Acquire
    | Launch
    | GiveUp
    | LoopEnd
    | Return
    | Cancel
    | Begin(i: nat, t: nat, now: int)
    | Finish(i: nat)
    | Free(i: nat)
    | Leave(i: nat)
    | Other(e: Event)

  /** What ListPending returns: every pending invoice once. */
  ghost predicate IsSnapshot(ledger: Ledger, snapshot: seq<Invoice>) {
    && (forall i :: 0 <= i < |snapshot| ==> IsPending(ledger, snapshot[i].id) && ledger[snapshot[i].id] == snapshot[i])
    && (forall i, j :: 0 <= i < j < |snapshot| ==> snapshot[i].id != snapshot[j].id)
    && (forall id :: IsPending(ledger, id) ==> exists i :: 0 <= i < |snapshot| && snapshot[i].id == id)
  }

  function Start(snapshot: seq<Invoice>, now: int, proc: nat, concurrency: nat): Tick {
    Tick(snapshot, now, proc, concurrency, 0, 0, 0, map[], if snapshot == [] then Returned(false) else Looping, false)
  }

  predicate IsAt(tick: Tick, i: nat, w: Worker) {
    i in tick.workers && tick.workers[i] == w
  }

  predicate Runs(tick: Tick, i: nat) {
    i in tick.workers && tick.workers[i].Running?
  }

  ghost predicate Can(s: State, tick: Tick, e: TickEvent) {
    match e
    case Acquire => tick.phase.Looping? && tick.next < |tick.snapshot| && tick.slots < tick.concurrency
    case Launch => tick.phase.Launching?
    case GiveUp => tick.phase.Looping? && tick.next < |tick.snapshot| && tick.ctxDone
    case LoopEnd => tick.phase.Looping? && tick.next >= |tick.snapshot|
    case Return => tick.phase.Draining? && tick.waiting == 0
    case Cancel => true
    case Begin(i, t, now) => IsAt(tick, i, Ready) && i < |tick.snapshot| && t !in s.threads && now >= tick.begun
    case Finish(i) => Runs(tick, i) && tick.workers[i].t in s.threads && s.threads[tick.workers[i].t].pc.Finished?
    case Free(i) => i in tick.workers && tick.workers[i].Freeing? && tick.slots > 0
    case Leave(i) => i in tick.workers && tick.workers[i].Leaving? && tick.waiting > 0
    case Other(e) => Possible(s, e) && (e.Crash? ==> e.proc != tick.proc)
  }

  function Advance(tick: Tick, i: nat, w: Worker): Tick {
    tick.(workers := tick.workers[i := w])
  }

  function TickStep(tick: Tick, e: TickEvent): Tick
    requires (e.Finish? || e.Free? || e.Leave?) ==> e.i in tick.workers && !tick.workers[e.i].Ready?
    requires e.Free? ==> tick.slots > 0
    requires e.Leave? ==> tick.waiting > 0
    requires e.Return? ==> tick.phase.Draining?
  {
    match e
    case Acquire => tick.(slots := tick.slots + 1, phase := Launching)
    case Launch => Advance(tick, tick.next, Ready).(waiting := tick.waiting + 1, next := tick.next + 1, phase := Looping)
    case GiveUp => tick.(phase := Draining(true))
    case LoopEnd => tick.(phase := Draining(false))
    case Return => tick.(phase := Returned(tick.phase.cancelled))
    case Cancel => tick.(ctxDone := true)
    case Begin(i, t, _) => Advance(tick, i, Running(t))
    case Finish(i) => Advance(tick, i, Freeing(tick.workers[i].t))
    case Free(i) => Advance(tick, i, Leaving(tick.workers[i].t)).(slots := tick.slots - 1)
    case Leave(i) => Advance(tick, i, Gone(tick.workers[i].t)).(waiting := tick.waiting - 1)
    case Other(_) => tick
  }

  /** What the tick's own event does to the rest of the system. */
  function SystemEvent(tick: Tick, e: TickEvent): Option<Event>
    requires e.Begin? ==> e.i < |tick.snapshot|
  {
    match e
    case Begin(i, t, now) => Some(Spawn(t, tick.proc, CheckStatus(tick.snapshot[i].id), now))
    case Other(e) => Some(e)
    case _ => None
  }

  ghost predicate Moves(cfg: Config, s: State, tick: Tick, e: TickEvent, s': State, tick': Tick) {
    && Can(s, tick, e) && tick' == TickStep(tick, e)
    && match SystemEvent(tick, e)
       case Some(x) => Follows(cfg, s, x, s')
       case None => s' == s
  }

  /** A tick, from any reachable state, with anything else going on beside it. */
  ghost predicate IsTick(cfg: Config, states: seq<State>, ticks: seq<Tick>, events: seq<TickEvent>) {
    && |states| == |ticks| == |events| + 1
    && Inv(states[0]) && IsSnapshot(states[0].store.invoices, ticks[0].snapshot)
    && ticks[0] == Start(ticks[0].snapshot, ticks[0].begun, ticks[0].proc, ticks[0].concurrency)
    && forall k :: 0 <= k < |events| ==> Moves(cfg, states[k], ticks[k], events[k], states[k + 1], ticks[k + 1])
  }

  // ---- Counting slots and workers ----

  predicate HoldsSlot(w: Worker) {
    w.Ready? || w.Running? || w.Freeing?
  }

  function Slots(workers: map<nat, Worker>): set<nat> {
    set i | i in workers && HoldsSlot(workers[i])
  }

  function Alive(workers: map<nat, Worker>): set<nat> {
    set i | i in workers && !workers[i].Gone?
  }

  function Checks(workers: map<nat, Worker>): set<nat> {
    set i | i in workers && workers[i].Running?
  }

  /** Every slot in the semaphore belongs to a worker, or to the loop about to start
      one; the wait group counts the workers that have not left. */
  ghost predicate TickOk(tick: Tick) {
    && tick.slots == |Slots(tick.workers)| + (if tick.phase.Launching? then 1 else 0)
    && tick.slots <= tick.concurrency
    && tick.waiting == |Alive(tick.workers)|
    && (forall i: nat :: i in tick.workers <==> i < tick.next)
    && tick.next <= |tick.snapshot| && (tick.phase.Launching? ==> tick.next < |tick.snapshot|)
    && (tick.phase.Returned? ==> Alive(tick.workers) == {})
    && (tick.phase in {Draining(false), Returned(false)} ==> tick.next == |tick.snapshot|)
  }

  lemma CountsMove(workers: map<nat, Worker>, i: nat, w: Worker)
    ensures Slots(workers[i := w]) == if HoldsSlot(w) then Slots(workers) + {i} else Slots(workers) - {i}
    ensures Alive(workers[i := w]) == if w.Gone? then Alive(workers) - {i} else Alive(workers) + {i}
    ensures i in Slots(workers) <==> i in workers && HoldsSlot(workers[i])
    ensures i in Alive(workers) <==> i in workers && !workers[i].Gone?
  {
  }

  lemma LoopKeeps(s: State, tick: Tick, e: TickEvent)
    requires TickOk(tick) && Can(s, tick, e)
    requires e.Acquire? || e.GiveUp? || e.LoopEnd? || e.Return?
    ensures TickOk(TickStep(tick, e))
  {
    hide Slots, Alive;
    if e.Return? {
      EmptyByCount(Alive(tick.workers));
    }
  }

  lemma LaunchKeeps(tick: Tick)
    requires TickOk(tick) && tick.phase.Launching?
    ensures TickOk(TickStep(tick, Launch))
  {
    hide Slots, Alive;
    var i, workers := tick.next, tick.workers;
    CountsMove(workers, i, Ready);
    assert i !in workers;
    assert |Slots(workers[i := Ready])| == |Slots(workers)| + 1;
    assert |Alive(workers[i := Ready])| == |Alive(workers)| + 1;
  }

  lemma EmptyByCount(a: set<nat>)
    ensures |a| == 0 ==> a == {}
  {
    if a != {} {
      var x :| x in a;
      assert |a| == |a - {x}| + 1;
    }
  }

  lemma WorkerKeeps(tick: Tick, i: nat, w: Worker, slots: nat, waiting: nat)
    requires TickOk(tick) && i in tick.workers && !tick.workers[i].Gone?
    requires slots == tick.slots - (if HoldsSlot(tick.workers[i]) && !HoldsSlot(w) then 1 else 0)
    requires waiting == tick.waiting - (if w.Gone? then 1 else 0)
    requires HoldsSlot(w) ==> HoldsSlot(tick.workers[i])
    ensures TickOk(Advance(tick, i, w).(slots := slots, waiting := waiting))
  {
    hide Slots, Alive, HoldsSlot;
    CountsMove(tick.workers, i, w);
    var slots', alive' := Slots(tick.workers[i := w]), Alive(tick.workers[i := w]);
    assert |slots'| == |Slots(tick.workers)| - (tick.slots - slots);
    assert w.Gone? || alive' == Alive(tick.workers);
    assert |alive'| == |Alive(tick.workers)| - (tick.waiting - waiting);
    assert Alive(tick.workers) != {};
  }

  lemma TickKeeps(s: State, tick: Tick, e: TickEvent)
    requires TickOk(tick) && Can(s, tick, e)
    ensures TickOk(TickStep(tick, e))
  {
    hide Possible, TickOk;
    match e
    case Begin(i, t, _) => WorkerKeeps(tick, i, Running(t), tick.slots, tick.waiting);
    case Finish(i) => WorkerKeeps(tick, i, Freeing(tick.workers[i].t), tick.slots, tick.waiting);
    case Free(i) => WorkerKeeps(tick, i, Leaving(tick.workers[i].t), tick.slots - 1, tick.waiting);
    case Leave(i) => WorkerKeeps(tick, i, Gone(tick.workers[i].t), tick.slots, tick.waiting - 1);
    case Other(_) =>
    case Cancel => CancelKeeps(tick);
    case Launch => LaunchKeeps(tick);
    case _ => LoopKeeps(s, tick, e);
  }

  lemma CancelKeeps(tick: Tick)
    requires TickOk(tick)
    ensures TickOk(tick.(ctxDone := true))
  {
  }

  // ---- Workers and their threads ----

  /** A worker's thread makes one call, for the worker's invoice; it has returned once
      the worker is past it. */
  ghost predicate WorkerOk(s: State, tick: Tick, i: nat)
    requires i in tick.workers && i < |tick.snapshot|
  {
    var w := tick.workers[i];
    w.Ready? ||
    (&& w.t in s.threads
     && var th := s.threads[w.t];
     && th.proc == tick.proc && th.job == CheckStatus(tick.snapshot[i].id) && th.started >= tick.begun
     && (!w.Running? ==> th.pc.Finished?))
  }

  ghost predicate WorkersOk(s: State, tick: Tick) {
    && (forall i :: i in tick.workers ==> i < |tick.snapshot| && WorkerOk(s, tick, i))
    && (forall i, j :: i in tick.workers && j in tick.workers && i != j && !tick.workers[i].Ready? && !tick.workers[j].Ready?
          ==> tick.workers[i].t != tick.workers[j].t)
    && (forall i :: 0 <= i < |tick.snapshot| ==> Seen(s.store.invoices, tick.snapshot[i].id, tick.snapshot[i]))
  }

  /** Threads of a process that does not crash stay, with their job, and stay
      finished. */
  ghost predicate ThreadsStay(s: State, s': State, p: nat) {
    forall t :: t in s.threads && s.threads[t].proc == p ==> t in s'.threads && ThreadStays(s.threads[t], s'.threads[t])
  }

  predicate ThreadStays(a: Thread, b: Thread) {
    b.proc == a.proc && b.job == a.job && b.started == a.started && (a.pc.Finished? ==> b.pc == a.pc)
  }

  lemma EventThreads(cfg: Config, s: State, e: Event, p: nat)
    requires Possible(s, e) && (e.Crash? ==> e.proc != p)
    ensures ThreadsStay(s, Step(cfg, s, e), p)
  {
    hide Next;
  }

  lemma WorkerStays(s: State, s': State, tick: Tick, i: nat)
    requires i in tick.workers && i < |tick.snapshot| && WorkerOk(s, tick, i) && ThreadsStay(s, s', tick.proc)
    ensures WorkerOk(s', tick, i)
  {
  }

  /** The rest of the system moves. */
  lemma OthersKeep(cfg: Config, s: State, tick: Tick, e: Event)
    requires Inv(s) && WorkersOk(s, tick) && Possible(s, e) && (e.Crash? ==> e.proc != tick.proc)
    ensures Inv(Step(cfg, s, e)) && WorkersOk(Step(cfg, s, e), tick)
  {
    hide Inv, Next, WorkerOk, ThreadsStay, LedgerEvolves, Seen, Honest;
    var s' := Step(cfg, s, e);
    StepKeeps(cfg, s, e);
    StepEvolves(cfg, s, e);
    EventThreads(cfg, s, e, tick.proc);
    forall i | i in tick.workers ensures i < |tick.snapshot| && WorkerOk(s', tick, i) {
      WorkerStays(s, s', tick, i);
    }
    forall i | 0 <= i < |tick.snapshot| ensures Seen(s'.store.invoices, tick.snapshot[i].id, tick.snapshot[i]) {
      SeenStays(s.store.invoices, s'.store.invoices, tick.snapshot[i].id, tick.snapshot[i]);
    }
  }

  /** A worker calls CheckStatus in a new thread. */
  lemma BeginKeeps(cfg: Config, s: State, tick: Tick, e: TickEvent)
    requires Inv(s) && TickOk(tick) && WorkersOk(s, tick) && e.Begin? && Can(s, tick, e)
    ensures var s' := Step(cfg, s, SystemEvent(tick, e).value); Inv(s') && WorkersOk(s', TickStep(tick, e))
  {
    hide Inv, Seen, TickOk;
    var x := SystemEvent(tick, e).value;
    var s' := Step(cfg, s, x);
    OthersKeep(cfg, s, tick, x);
    var tick' := TickStep(tick, e);
    assert WorkerOk(s', tick', e.i);
    forall i | i in tick'.workers && i != e.i ensures i < |tick'.snapshot| && WorkerOk(s', tick', i) {
      assert WorkerOk(s', tick, i);
    }
  }

  /** A worker past its call moves on. */
  lemma MoveOnKeeps(s: State, tick: Tick, e: TickEvent)
    requires WorkersOk(s, tick) && TickOk(tick) && Can(s, tick, e) && (e.Finish? || e.Free? || e.Leave? || e.Launch?)
    ensures WorkersOk(s, TickStep(tick, e))
  {
    hide Seen, Slots, Alive, Possible;
    var tick' := TickStep(tick, e);
    forall i | i in tick'.workers ensures i < |tick'.snapshot| && WorkerOk(s, tick', i) {
      assert i in tick.workers ==> WorkerOk(s, tick, i);
    }
  }

  lemma MovesKeep(cfg: Config, s: State, tick: Tick, e: TickEvent, s': State, tick': Tick)
    requires Inv(s) && TickOk(tick) && WorkersOk(s, tick) && Moves(cfg, s, tick, e, s', tick')
    ensures Inv(s') && TickOk(tick') && WorkersOk(s', tick')
  {
    hide Inv, TickOk, Seen, Step, Possible, WorkerOk;
    TickKeeps(s, tick, e);
    match e
    case Begin(_, _, _) => BeginKeeps(cfg, s, tick, e);
    case Finish(_) => MoveOnKeeps(s, tick, e);
    case Free(_) => MoveOnKeeps(s, tick, e);
    case Leave(_) => MoveOnKeeps(s, tick, e);
    case Launch => MoveOnKeeps(s, tick, e);
    case Other(x) => OthersKeep(cfg, s, tick, x);
    case _ => SameWorkers(s, tick, tick');
  }

  lemma SameWorkers(s: State, tick: Tick, tick': Tick)
    requires WorkersOk(s, tick) && tick'.workers == tick.workers
    requires tick'.snapshot == tick.snapshot && tick'.proc == tick.proc && tick'.begun == tick.begun
    ensures WorkersOk(s, tick')
  {
    hide Seen;
    forall i | i in tick'.workers ensures i < |tick'.snapshot| && WorkerOk(s, tick', i) {
      assert WorkerOk(s, tick, i);
    }
  }

  lemma StartOk(s: State, tick: Tick)
    requires Inv(s) && IsSnapshot(s.store.invoices, tick.snapshot)
    requires tick == Start(tick.snapshot, tick.begun, tick.proc, tick.concurrency)
    ensures TickOk(tick) && WorkersOk(s, tick)
  {
    hide LocksOk, ThreadsOk, AllJustified, AllOnce, FiredOk, Indexed;
    assert Slots(map[]) == {} && Alive(map[]) == {};
  }

  lemma {:induction false} TickInv(cfg: Config, states: seq<State>, ticks: seq<Tick>, events: seq<TickEvent>, k: nat)
    requires IsTick(cfg, states, ticks, events) && k < |states|
    ensures |ticks| == |states|
    ensures Inv(states[k]) && TickOk(ticks[k]) && WorkersOk(states[k], ticks[k])
    ensures ticks[k].snapshot == ticks[0].snapshot && ticks[k].begun == ticks[0].begun
    ensures ticks[k].concurrency == ticks[0].concurrency
  {
    hide Inv, TickOk, WorkersOk, Moves;
    if k == 0 {
      StartOk(states[0], ticks[0]);
    } else {
      TickInv(cfg, states, ticks, events, k - 1);
      MovesKeep(cfg, states[k - 1], ticks[k - 1], events[k - 1], states[k], ticks[k]);
      MovesSameJob(cfg, states[k - 1], ticks[k - 1], events[k - 1], states[k], ticks[k]);
    }
  }

  lemma MovesSameJob(cfg: Config, s: State, tick: Tick, e: TickEvent, s': State, tick': Tick)
    requires Moves(cfg, s, tick, e, s', tick')
    ensures tick'.snapshot == tick.snapshot && tick'.begun == tick.begun && tick'.concurrency == tick.concurrency
  {
    hide Follows, Possible;
  }

  // ---- What a tick guarantees ----

  /** Never more checks at once than the concurrency; and when the tick has returned,
      however it did, none of its workers is left. */
  lemma BoundedAndDrained(cfg: Config, states: seq<State>, ticks: seq<Tick>, events: seq<TickEvent>, k: nat)
    requires IsTick(cfg, states, ticks, events) && k < |states|
    ensures |Checks(ticks[k].workers)| <= ticks[0].concurrency
    ensures ticks[k].phase.Returned? ==> forall i :: i in ticks[k].workers ==> ticks[k].workers[i].Gone?
  {
    hide IsTick, Inv, WorkersOk;
    TickInv(cfg, states, ticks, events, k);
    var workers := ticks[k].workers;
    SubsetSize(Checks(workers), Slots(workers));
    if ticks[k].phase.Returned? {
      forall i | i in workers ensures workers[i].Gone? {
        assert i !in Alive(workers);
      }
    }
  }

  /** The thread that checked an invoice of the snapshot. */
  function Checker(tick: Tick, i: nat): nat
    requires i in tick.workers && !tick.workers[i].Ready?
  {
    tick.workers[i].t
  }

  predicate HasChecked(s: State, t: nat, id: string) {
    t in s.threads && s.threads[t].job == CheckStatus(id) && s.threads[t].pc.Finished?
  }

  /** A tick that was not cancelled has made exactly one call of CheckStatus for each
      invoice of its snapshot, and every call has returned. */
  lemma EachCheckedOnce(cfg: Config, states: seq<State>, ticks: seq<Tick>, events: seq<TickEvent>, k: nat)
    requires IsTick(cfg, states, ticks, events) && k < |states| && ticks[k].phase == Returned(false)
    ensures var s, tick := states[k], ticks[k];
      && (forall i: nat :: i in tick.workers <==> i < |ticks[0].snapshot|)
      && (forall i :: i in tick.workers ==> tick.workers[i].Gone?)
      && (forall i :: i in tick.workers ==> HasChecked(s, Checker(tick, i), ticks[0].snapshot[i].id))
      && (forall i, j :: i in tick.workers && j in tick.workers && i != j ==> Checker(tick, i) != Checker(tick, j))
  {
    hide IsTick, Inv, Alive, Slots;
    TickInv(cfg, states, ticks, events, k);
    BoundedAndDrained(cfg, states, ticks, events, k);
    assert forall i :: i in ticks[k].workers ==> WorkerOk(states[k], ticks[k], i);
  }

  /** No call of the tick met an error. */
  predicate NoErrors(s: State, tick: Tick) {
    forall i :: i in tick.workers && !tick.workers[i].Ready? && Checker(tick, i) in s.threads ==>
      var pc := s.threads[Checker(tick, i)].pc; pc.Finished? ==> pc.reply.Replied?
  }

  /** If no call met an error, every invoice of the snapshot whose deadline had passed when
      the tick began is settled or expired when it returns uncancelled. */
  lemma OverdueCleared(cfg: Config, states: seq<State>, ticks: seq<Tick>, events: seq<TickEvent>, k: nat, i: nat)
    requires IsTick(cfg, states, ticks, events) && k < |states| && ticks[k].phase == Returned(false)
    requires NoErrors(states[k], ticks[k])
    requires i < |ticks[0].snapshot|
    requires var inv := ticks[0].snapshot[i]; inv.expiresAt != -62_135_596_800_000_000_000 && ticks[0].begun > inv.expiresAt
    ensures var id, ledger := ticks[0].snapshot[i].id, states[k].store.invoices; id in ledger && ledger[id].status != Pending
  {
    hide IsTick, Inv, TickOk, Seen, HasChecked;
    EachCheckedOnce(cfg, states, ticks, events, k);
    TickInv(cfg, states, ticks, events, k);
    var s, tick, inv := states[k], ticks[k], ticks[0].snapshot[i];
    var t := Checker(tick, i);
    assert HasChecked(s, t, inv.id) && WorkerOk(s, tick, i);
    ItsReply(s, t, inv.id);
    OverdueLater(inv, tick.begun, s.threads[t].started);
    CheckedReply(s, t, inv);
  }

  lemma ItsReply(s: State, t: nat, id: string)
    requires HasChecked(s, t, id)
    ensures t in s.threads && s.threads[t].job.CheckStatus? && s.threads[t].pc.Finished?
  {
  }

  lemma CheckedReply(s: State, t: nat, inv: Invoice)
    requires Inv(s) && HasChecked(s, t, inv.id) && s.threads[t].pc.reply.Replied?
    requires Seen(s.store.invoices, inv.id, inv) && Overdue(inv, s.threads[t].started)
    ensures inv.id in s.store.invoices && s.store.invoices[inv.id].status != Pending
  {
    hide LocksOk, AllJustified, AllOnce, FiredOk, Indexed, Distinct;
    AThread(s, t);
    SeenTerms(s.store.invoices, inv.id, s.threads[t].pc.reply.inv, inv);
  }

  lemma OverdueLater(inv: Invoice, now: int, later: int)
    requires Overdue(inv, now) && now <= later
    ensures Overdue(inv, later)
  {
  }

  /** Until it has returned the tick can move, or is waiting for a check that runs. */
  lemma TickNeverStuck(cfg: Config, states: seq<State>, ticks: seq<Tick>, events: seq<TickEvent>, k: nat)
    requires IsTick(cfg, states, ticks, events) && k < |states| && !ticks[k].phase.Returned? && ticks[0].concurrency >= 1
    ensures
      || (exists e: TickEvent :: !e.Other? && !e.Cancel? && Can(states[k], ticks[k], e))
      || (exists i :: Runs(ticks[k], i) && ticks[k].workers[i].t in states[k].threads
            && !states[k].threads[ticks[k].workers[i].t].pc.Finished?)
  {
    hide IsTick, Inv;
    TickInv(cfg, states, ticks, events, k);
    var s, tick := states[k], ticks[k];
    if tick.phase.Launching? {
      assert Can(s, tick, Launch);
    } else if tick.phase.Looping? && tick.next == |tick.snapshot| {
      assert Can(s, tick, LoopEnd);
    } else if tick.phase.Looping? && tick.slots < tick.concurrency {
      assert Can(s, tick, Acquire);
    } else if tick.phase.Draining? && tick.waiting == 0 {
      assert Can(s, tick, Return);
    } else {
      SlotHoldersAlive(tick.workers);
      var i :| i in Alive(tick.workers);
      WorkerMoves(s, tick, i);
    }
  }

  lemma SlotHoldersAlive(workers: map<nat, Worker>)
    ensures Slots(workers) <= Alive(workers)
    ensures |Slots(workers)| > 0 || |Alive(workers)| > 0 ==> exists i :: i in Alive(workers)
  {
    if |Slots(workers)| > 0 {
      var i :| i in Slots(workers);
      assert i in Alive(workers);
    } else if |Alive(workers)| > 0 {
      var i :| i in Alive(workers);
    }
  }

  lemma WorkerMoves(s: State, tick: Tick, i: nat)
    requires TickOk(tick) && WorkersOk(s, tick) && i in Alive(tick.workers)
    ensures
      || (exists e: TickEvent :: !e.Other? && !e.Cancel? && Can(s, tick, e))
      || (exists j :: Runs(tick, j) && tick.workers[j].t in s.threads && !s.threads[tick.workers[j].t].pc.Finished?)
  {
    assert WorkerOk(s, tick, i);
    var w := tick.workers[i];
    match w
    case Ready =>
      var t := Above(s.threads.Keys);
      assert Can(s, tick, Begin(i, t, tick.begun));
    case Running(t) =>
      if s.threads[t].pc.Finished? {
        assert Can(s, tick, Finish(i));
      } else {
        assert Runs(tick, i);
      }
    case Freeing(t) =>
      assert i in Slots(tick.workers);
      assert Can(s, tick, Free(i));
    case Leaving(t) => assert Can(s, tick, Leave(i));
  }

  // ---- A tick ends ----

  /** Events of the tick itself. */
  predicate Own(e: TickEvent) {
    !e.Other? && !e.Cancel?
  }

  /** Steps a worker has left. */
  function StepsLeft(w: Worker): int {
    match w
    case Ready => 4
    case Running(_) => 3
    case Freeing(_) => 2
    case Leaving(_) => 1
    case Gone(_) => 0
  }

  ghost function AllStepsLeft(workers: map<nat, Worker>): map<nat, int> {
    map i | i in workers :: StepsLeft(workers[i])
  }

  /** What is left: six steps for each invoice not begun, those of the workers, and the
      end of the loop and of the tick. */
  ghost function TickLeft(tick: Tick): int {
    6 * (|tick.snapshot| - tick.next) - (if tick.phase.Launching? then 1 else 0)
    + Total(AllStepsLeft(tick.workers))
    + match tick.phase case Draining(_) => 1 case Returned(_) => 0 case _ => 2
  }

  function OwnSteps(events: seq<TickEvent>): nat {
    if events == [] then 0 else OwnSteps(events[..|events| - 1]) + if Own(events[|events| - 1]) then 1 else 0
  }

  lemma WorkerStep(workers: map<nat, Worker>, i: nat, w: Worker)
    ensures Total(AllStepsLeft(workers[i := w]))
      == Total(AllStepsLeft(workers)) + StepsLeft(w) - if i in workers then StepsLeft(workers[i]) else 0
  {
    hide StepsLeft, Total;
    var before, after := AllStepsLeft(workers), AllStepsLeft(workers[i := w]);
    TotalRemove(after, i);
    assert after - {i} == before - {i};
    if i in workers {
      TotalRemove(before, i);
    } else {
      assert before - {i} == before;
    }
  }

  lemma OwnStep(s: State, tick: Tick, e: TickEvent)
    requires TickOk(tick) && Can(s, tick, e)
    ensures TickLeft(TickStep(tick, e)) == TickLeft(tick) - if Own(e) then 1 else 0
  {
    hide Possible, AllStepsLeft, Slots, Alive, Total;
    match e
    case Launch => WorkerStep(tick.workers, tick.next, Ready);
    case Begin(i, t, _) => WorkerStep(tick.workers, i, Running(t));
    case Finish(i) => WorkerStep(tick.workers, i, Freeing(tick.workers[i].t));
    case Free(i) => WorkerStep(tick.workers, i, Leaving(tick.workers[i].t));
    case Leave(i) => WorkerStep(tick.workers, i, Gone(tick.workers[i].t));
    case _ =>
  }

  lemma LeftPositive(tick: Tick)
    requires TickOk(tick)
    ensures TickLeft(tick) >= 0
  {
    hide Slots, Alive, Total;
    TotalBounds(AllStepsLeft(tick.workers));
  }

  /** However the workers are scheduled, a tick takes at most six steps of its own for
      each invoice of its snapshot, and two more. */
  lemma {:induction false} TickEnds(cfg: Config, states: seq<State>, ticks: seq<Tick>, events: seq<TickEvent>)
    requires IsTick(cfg, states, ticks, events)
    ensures OwnSteps(events) <= 6 * |ticks[0].snapshot| + 2 - TickLeft(ticks[|events|])
    ensures TickLeft(ticks[|events|]) >= 0
  {
    hide Inv, TickOk, WorkersOk, Moves, TickLeft;
    var n := |events|;
    TickInv(cfg, states, ticks, events, n);
    LeftPositive(ticks[n]);
    if n == 0 {
      StartLeft(ticks[0]);
    } else {
      TickEnds(cfg, states[..n], ticks[..n], events[..n - 1]);
      TickInv(cfg, states, ticks, events, n - 1);
      MovesLeft(cfg, states[n - 1], ticks[n - 1], events[n - 1], states[n], ticks[n]);
    }
  }

  lemma StartLeft(tick: Tick)
    requires tick == Start(tick.snapshot, tick.begun, tick.proc, tick.concurrency)
    ensures TickLeft(tick) <= 6 * |tick.snapshot| + 2
  {
    assert AllStepsLeft(map[]) == map[];
  }

  lemma MovesLeft(cfg: Config, s: State, tick: Tick, e: TickEvent, s': State, tick': Tick)
    requires TickOk(tick) && Moves(cfg, s, tick, e, s', tick')
    ensures TickLeft(tick') == TickLeft(tick) - if Own(e) then 1 else 0
  {
    hide TickOk, Follows, Can, TickLeft;
    OwnStep(s, tick, e);
  }
}
