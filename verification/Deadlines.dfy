/** Deadlines over every run: an invoice expires only when a check reads a clock that has
    passed the deadline, and it has all the time that its creator asked for. */
module Deadlines {
  import opened Store
  import opened Verifier
  import opened Protocol
  import opened Settlement
  import opened Preservation
  import opened Guarantees

  /** A check of an invoice, not credited by its verdict, reads a clock past a time. */
  ghost predicate ReadsPast(s: State, e: Event, id: string, time: int) {
    && e.Go? && e.t in s.threads && s.threads[e.t].job == CheckStatus(id)
    && s.threads[e.t].pc.Timing? && e.input.now > time
  }

  /** Some check has, before a moment of a run. */
  ghost predicate HasReadPast(states: seq<State>, events: seq<Event>, i: nat, id: string, time: int)
    requires i <= |events| < |states|
  {
    exists k :: 0 <= k < i && ReadsPast(states[k], events[k], id, time)
  }

  /** The invoice has a deadline, and a check has read a clock past it. */
  ghost predicate Expiration(states: seq<State>, events: seq<Event>, i: nat, id: string, deadline: int)
    requires i <= |events| < |states|
  {
    deadline != -62_135_596_800_000_000_000 && HasReadPast(states, events, i, id, deadline)
  }

  /** ... for every invoice that has expired or is about to. */
  ghost predicate Grounded(states: seq<State>, events: seq<Event>, i: nat)
    requires i <= |events| < |states|
  {
    && (forall t :: t in states[i].threads && states[i].threads[t].pc.Expiring? ==>
          Expiration(states, events, i, states[i].threads[t].pc.inv.id, states[i].threads[t].pc.inv.expiresAt))
    && (forall id :: id in states[i].store.invoices && states[i].store.invoices[id].status == Expired ==>
          Expiration(states, events, i, id, states[i].store.invoices[id].expiresAt))
  }

  /** The clock decides: an unpaid invoice without a deadline, or before it, is returned as
      it is, and one past its deadline is to be expired. */
  lemma ClockDecides(cfg: Config, s: State, t: nat, x: Input)
    requires t in s.threads && Typed(s.threads[t]) && s.threads[t].pc.Timing?
    ensures var pc := s.threads[t].pc;
      var late := pc.inv.expiresAt != -62_135_596_800_000_000_000 && x.now > pc.inv.expiresAt;
      Next(cfg, s, t, x) == At(s, t, if late then Expiring(pc.inv, pc.response, x.now) else Finished(Replied(pc.inv)))
  {
  }

  /** A thread comes to expire an invoice only from reading the clock. */
  lemma NewlyExpiring(cfg: Config, s: State, e: Event, t: nat)
    requires Inv(s) && Possible(s, e) && t in Step(cfg, s, e).threads
    requires Step(cfg, s, e).threads[t].pc.Expiring?
    ensures var inv := Step(cfg, s, e).threads[t].pc.inv;
      || (t in s.threads && s.threads[t] == Step(cfg, s, e).threads[t])
      || (inv.expiresAt != -62_135_596_800_000_000_000 && ReadsPast(s, e, inv.id, inv.expiresAt))
  {
    hide LocksOk, AllOnce, AllJustified, FiredOk, Indexed, Distinct, ThreadsOk, Honest, Judge, ClaimStep, LockStep;
    if e.Go? && e.t == t {
      AThread(s, t);
      var pc := s.threads[t].pc;
      if pc.Timing? {
        ClockDecides(cfg, s, t, e.input);
      } else {
        NotExpiring(cfg, s, t, e.input);
      }
    }
  }

  lemma NotExpiring(cfg: Config, s: State, t: nat, x: Input)
    requires t in s.threads && Typed(s.threads[t]) && !s.threads[t].pc.Finished? && !s.threads[t].pc.Timing?
    ensures !Next(cfg, s, t, x).threads[t].pc.Expiring?
  {
    hide LocalNext, ClaimStep, ExpireStep, InsertStep, LockStep, OnlyMoved;
    var pc := s.threads[t].pc;
    if IsLocal(pc) {
      LocalNotExpiring(cfg, s.store, s.threads[t], x);
    } else if !pc.Firing? {
      SharedNotExpiring(cfg, s, t, x);
    }
  }

  lemma LocalNotExpiring(cfg: Config, m: Mem, th: Thread, x: Input)
    requires IsLocal(th.pc) && Typed(th) && !th.pc.Timing?
    ensures !LocalNext(cfg, m, th, x).Expiring?
  {
    hide Judge, Draft, OverCap, Get;
  }

  lemma SharedNotExpiring(cfg: Config, s: State, t: nat, x: Input)
    requires t in s.threads && Typed(s.threads[t])
    requires var pc := s.threads[t].pc; !IsLocal(pc) && !pc.Firing? && !pc.Finished?
    ensures var pc := s.threads[t].pc;
      && (pc.Claiming? ==> !ClaimStep(cfg, s, t, x.ok).threads[t].pc.Expiring?)
      && (pc.Expiring? ==> !ExpireStep(s, t, x.ok).threads[t].pc.Expiring?)
      && (pc.Inserting? ==> !InsertStep(s, t, x).threads[t].pc.Expiring?)
      && (IsLockStep(pc) ==> !LockStep(s, t).threads[t].pc.Expiring?)
  {
    hide Claim, Expire, Create, TableOf, OnlyMoved;
  }

  lemma NewlyExpired(cfg: Config, s: State, e: Event, id: string)
    requires Inv(s) && Possible(s, e)
    requires var ledger' := Step(cfg, s, e).store.invoices; id in ledger' && ledger'[id].status == Expired
    requires id in s.store.invoices ==> s.store.invoices[id].status != Expired
    ensures e.Go? && s.threads[e.t].pc.Expiring? && s.threads[e.t].pc.inv.id == id
    ensures s.threads[e.t].pc.inv.expiresAt == Step(cfg, s, e).store.invoices[id].expiresAt
  {
    hide LocksOk, AllOnce, AllJustified, FiredOk, Indexed, Distinct, ThreadsOk, Honest, Judge, Next, Apply;
    if e.Go? {
      var op := OpOf(s.threads[e.t].pc, e.input);
      AThread(s, e.t);
      StoreAfter(cfg, s, e.t, e.input);
      if op.Some? {
        OnlyExpireExpires(s.store, op.value, e.input.ok, id);
      }
    }
  }

  lemma OnlyExpireExpires(m: Mem, op: Op, ok: bool, id: string)
    requires op.CreateOp? ==> op.inv.id !in m.invoices && op.inv.status != Expired
    requires var ledger' := Apply(m, op, ok).0.invoices; id in ledger' && ledger'[id].status == Expired
    requires id in m.invoices ==> m.invoices[id].status != Expired
    ensures op == ExpireOp(id) && IsPending(m.invoices, id) && Apply(m, op, ok).0.invoices[id] == Lapsed(m.invoices[id])
  {
    if op.CreateOp? {
      InsertEffect(m, op.inv, ok);
    }
  }

  lemma StepGrounded(cfg: Config, states: seq<State>, events: seq<Event>, i: nat)
    requires IsRun(cfg, states, events) && i < |events| && Grounded(states, events, i)
    ensures Grounded(states, events, i + 1)
  {
    assert |states| == |events| + 1;
    hide IsRun, Inv, Step, Possible, ReadsPast;
    var s, s', e := states[i], states[i + 1], events[i];
    RunInv(cfg, states, events, i);
    OneStep(cfg, states, events, i);
    forall t | t in s'.threads && s'.threads[t].pc.Expiring?
      ensures Expiration(states, events, i + 1, s'.threads[t].pc.inv.id, s'.threads[t].pc.inv.expiresAt)
    {
      NewlyExpiring(cfg, s, e, t);
    }
    forall id | id in s'.store.invoices && s'.store.invoices[id].status == Expired
      ensures Expiration(states, events, i + 1, id, s'.store.invoices[id].expiresAt)
    {
      if id in s.store.invoices && s.store.invoices[id].status == Expired {
        TerminalForever(cfg, states, events, i, i + 1, id);
      } else {
        NewlyExpired(cfg, s, e, id);
        assert e.t in s.threads by { Stepping(s, e); }
      }
    }
  }

  lemma Stepping(s: State, e: Event)
    requires Possible(s, e) && e.Go?
    ensures e.t in s.threads
  {
  }

  lemma {:induction false} RunGrounded(cfg: Config, states: seq<State>, events: seq<Event>, i: nat)
    requires IsRun(cfg, states, events) && i < |states|
    ensures Grounded(states, events, i)
  {
    hide Follows, Grounded;
    if i == 0 {
      assert Grounded(states, events, 0) by { StartGrounded(cfg, states, events); }
    } else {
      RunGrounded(cfg, states, events, i - 1);
      StepGrounded(cfg, states, events, i - 1);
    }
  }

  lemma StartGrounded(cfg: Config, states: seq<State>, events: seq<Event>)
    requires IsRun(cfg, states, events)
    ensures Grounded(states, events, 0)
  {
    hide Follows;
  }

  /** An invoice has expired only if it has a deadline and some check of it, with a
      verdict that did not credit it, has read a clock past the deadline. */
  lemma ExpiredOnlyLate(cfg: Config, states: seq<State>, events: seq<Event>, i: nat, id: string)
    requires IsRun(cfg, states, events) && i < |states|
    requires id in states[i].store.invoices && states[i].store.invoices[id].status == Expired
    ensures Expiration(states, events, i, id, states[i].store.invoices[id].expiresAt)
  {
    hide IsRun, Expiration;
    RunGrounded(cfg, states, events, i);
  }

  // ---- From the creation on ----

  /** The deadline of an invoice that is being created, or was, is the one asked for. */
  ghost predicate Dated(cfg: Config, th: Thread) {
    th.job.CreateInvoice? ==>
      && (th.pc.Inserting? ==> IsDeadline(cfg, th.job.ttl, th.pc.draft.createdAt, th.pc.draft.expiresAt))
      && (th.pc.Finished? && th.pc.reply.Replied? ==>
            IsDeadline(cfg, th.job.ttl, th.pc.reply.inv.createdAt, th.pc.reply.inv.expiresAt))
  }

  lemma GoDated(cfg: Config, s: State, t: nat, x: Input)
    requires t in s.threads && Typed(s.threads[t]) && !s.threads[t].pc.Finished? && Dated(cfg, s.threads[t])
    ensures Dated(cfg, Next(cfg, s, t, x).threads[t])
  {
    hide LocalNext, ClaimStep, ExpireStep, InsertStep, LockStep, IsDeadline;
    var th := s.threads[t];
    if th.job.CreateInvoice? {
      if th.pc.Inserting? {
        InsertDated(cfg, s, t, x);
      } else {
        StampDated(cfg, s.store, th, x);
      }
    }
  }

  lemma InsertDated(cfg: Config, s: State, t: nat, x: Input)
    requires t in s.threads && s.threads[t].job.CreateInvoice? && s.threads[t].pc.Inserting? && Dated(cfg, s.threads[t])
    ensures Dated(cfg, InsertStep(s, t, x).threads[t])
  {
    hide Create, IsDeadline;
  }

  lemma StampDated(cfg: Config, m: Mem, th: Thread, x: Input)
    requires th.job.CreateInvoice? && Typed(th) && (th.pc.Counting? || th.pc.Stamping?)
    ensures Dated(cfg, th.(pc := LocalNext(cfg, m, th, x)))
  {
    hide OverCap;
  }

  lemma {:induction false} RunDated(cfg: Config, states: seq<State>, events: seq<Event>, i: nat, t: nat)
    requires IsRun(cfg, states, events) && i < |states| && t in states[i].threads
    ensures Dated(cfg, states[i].threads[t])
  {
    hide Next, Honest, Follows, Dated;
    if i > 0 {
      var s, e := states[i - 1], events[i - 1];
      OneStep(cfg, states, events, i - 1);
      if t in s.threads {
        RunDated(cfg, states, events, i - 1, t);
      }
      if e.Go? && e.t == t {
        GoDated(cfg, s, t, e.input);
      } else if e.Spawn? && e.t == t {
        SpawnDated(cfg, states[i].threads[t]);
      }
    }
  }

  lemma SpawnDated(cfg: Config, th: Thread)
    requires th.pc == StartPc(th.job)
    ensures Dated(cfg, th)
  {
  }

  /** An invoice created for a time within the limit has expired only if some check of it
      has read a clock past the time of creation by more than that. */
  lemma FullTime(cfg: Config, states: seq<State>, events: seq<Event>, i: nat, j: nat, t: nat)
    requires IsRun(cfg, states, events) && i <= j < |states| && t in states[i].threads
    requires var th := states[i].threads[t];
      th.job.CreateInvoice? && 0 < th.job.ttl <= cfg.maxTTL && th.pc.Finished? && th.pc.reply.Replied?
    ensures var inv, ledger := states[i].threads[t].pc.reply.inv, states[j].store.invoices;
      && inv.id in ledger
      && (ledger[inv.id].status == Expired ==>
            HasReadPast(states, events, j, inv.id, inv.createdAt + states[i].threads[t].job.ttl))
  {
    hide IsRun, Inv, HasReadPast;
    var inv := states[i].threads[t].pc.reply.inv;
    RunInv(cfg, states, events, i);
    RunDated(cfg, states, events, i, t);
    CreatedStored(states[i], t);
    TerminalForever(cfg, states, events, i, j, inv.id);
    if states[j].store.invoices[inv.id].status == Expired {
      ExpiredOnlyLate(cfg, states, events, j, inv.id);
    }
  }

  lemma CreatedStored(s: State, t: nat)
    requires Inv(s) && t in s.threads && s.threads[t].job.CreateInvoice?
    requires s.threads[t].pc.Finished? && s.threads[t].pc.reply.Replied?
    ensures var inv := s.threads[t].pc.reply.inv; inv.id in s.store.invoices && SameTerms(inv, s.store.invoices[inv.id])
  {
    hide LocksOk, AllOnce, AllJustified, FiredOk, Indexed, Distinct, ThreadsOk;
    AThread(s, t);
  }
}
