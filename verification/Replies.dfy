/** What a check may still answer when its lookups work: never a copy of the invoice that
    others have overtaken. */
module Replies {
  import opened Store
  import opened Verifier
  import opened Protocol
  import opened Settlement
  import opened Preservation
  import opened Guarantees

  /** Every lookup that a thread makes in this part of a run works. */
  ghost predicate LookupsWork(events: seq<Event>, t: nat, i: nat, j: nat) {
    forall k :: i <= k < j && k < |events| && events[k].Go? && events[k].t == t ==> events[k].input.ok
  }

  /** Under the lock a check is about to answer, or it has answered, with a settled or
      expired invoice; or with a pending one whose deadline had not passed when it began. */
  predicate Current(th: Thread) {
    && (th.pc.Unlocking? && th.pc.reply.Replied? ==> th.pc.reply.inv.status != Pending)
    && (th.pc.Finished? && th.pc.reply.Replied? && th.pc.reply.inv.status == Pending ==>
          th.pc.reply.inv.expiresAt == -62_135_596_800_000_000_000 || th.started <= th.pc.reply.inv.expiresAt)
  }

  lemma LocalCurrent(s: State, t: nat, cfg: Config, x: Input)
    requires t in s.threads && Enabled(s, t, x) && s.threads[t].job.CheckStatus? && IsLocal(s.threads[t].pc)
    requires ThreadOk(s.store.invoices, s.chain, s.threads[t]) && x.ok
    ensures Current(s.threads[t].(pc := LocalNext(cfg, s.store, s.threads[t], x)))
  {
    hide Honest, Judge, Witness, Draft, OverCap;
  }

  lemma ClaimCurrent(cfg: Config, s: State, t: nat, ok: bool)
    requires t in s.threads && s.threads[t].pc.Claiming?
    ensures Current(ClaimStep(cfg, s, t, ok).threads[t])
  {
    hide Claim;
  }

  lemma ExpireCurrent(s: State, t: nat, ok: bool)
    requires t in s.threads && s.threads[t].pc.Expiring?
    ensures Current(ExpireStep(s, t, ok).threads[t])
  {
    hide Expire;
  }

  lemma LockCurrent(s: State, t: nat)
    requires t in s.threads && Typed(s.threads[t]) && IsLockStep(s.threads[t].pc) && Current(s.threads[t])
    ensures Current(LockStep(s, t).threads[t])
  {
    hide TableOf;
  }

  lemma GoCurrent(cfg: Config, s: State, t: nat, x: Input)
    requires Inv(s) && Enabled(s, t, x) && s.threads[t].job.CheckStatus? && Current(s.threads[t]) && x.ok
    ensures Current(Next(cfg, s, t, x).threads[t])
  {
    hide LocksOk, AllOnce, AllJustified, FiredOk, Indexed, Distinct, ThreadsOk, Honest, ThreadOk, Current,
         LocalNext, ClaimStep, ExpireStep, LockStep, OnlyMoved;
    var pc := s.threads[t].pc;
    AThread(s, t);
    if IsLocal(pc) {
      LocalCurrent(s, t, cfg, x);
    } else if pc.Claiming? {
      ClaimCurrent(cfg, s, t, x.ok);
    } else if pc.Expiring? {
      ExpireCurrent(s, t, x.ok);
    } else if pc.Firing? {
      FireCurrent(cfg, s, t, x);
    } else {
      LockCurrent(s, t);
    }
  }

  lemma FireCurrent(cfg: Config, s: State, t: nat, x: Input)
    requires t in s.threads && Typed(s.threads[t]) && s.threads[t].pc.Firing?
    requires ThreadOk(s.store.invoices, s.chain, s.threads[t])
    ensures Current(Next(cfg, s, t, x).threads[t])
  {
  }

  lemma {:induction false} RunCurrent(cfg: Config, states: seq<State>, events: seq<Event>, i: nat, t: nat)
    requires IsRun(cfg, states, events) && i < |states| && LookupsWork(events, t, 0, i)
    requires t in states[i].threads && states[i].threads[t].job.CheckStatus?
    ensures Current(states[i].threads[t])
  {
    hide Next, Honest, Follows, Current, Inv;
    if i > 0 {
      var s, e := states[i - 1], events[i - 1];
      OneStep(cfg, states, events, i - 1);
      RunInv(cfg, states, events, i - 1);
      if e.Spawn? && e.t == t {
        SpawnCurrent(states[i].threads[t]);
      } else {
        RunCurrent(cfg, states, events, i - 1, t);
        if e.Go? && e.t == t {
          GoCurrent(cfg, s, t, e.input);
        }
      }
    }
  }

  lemma SpawnCurrent(th: Thread)
    requires th.pc == StartPc(th.job)
    ensures Current(th)
  {
  }

  /** A check whose lookups work answers with an invoice that is no longer pending if its
      deadline had passed when the check began. */
  lemma OverdueAnswer(cfg: Config, states: seq<State>, events: seq<Event>, i: nat, t: nat)
    requires IsRun(cfg, states, events) && i < |states| && LookupsWork(events, t, 0, i)
    requires t in states[i].threads && states[i].threads[t].job.CheckStatus?
    requires states[i].threads[t].pc.Finished? && states[i].threads[t].pc.reply.Replied?
    ensures var inv := states[i].threads[t].pc.reply.inv;
      inv.expiresAt != -62_135_596_800_000_000_000 && states[i].threads[t].started > inv.expiresAt ==> inv.status != Pending
  {
    hide IsRun;
    RunCurrent(cfg, states, events, i, t);
  }

  /** On the way to settling, or done with an invoice that is no longer pending. */
  predicate Settles(pc: Pc) {
    if pc.Finished? then pc.reply.Replied? ==> pc.reply.inv.status != Pending else PastCredit(pc)
  }

  lemma GoSettles(cfg: Config, s: State, t: nat, x: Input)
    requires Inv(s) && Enabled(s, t, x) && s.threads[t].job.CheckStatus? && Current(s.threads[t]) && Settles(s.threads[t].pc)
    ensures Settles(Next(cfg, s, t, x).threads[t].pc)
  {
    hide Inv, Next, Honest, PastCredit;
    var pc := s.threads[t].pc;
    if pc.Unlocking? {
      assert Next(cfg, s, t, x).threads[t].pc == Finished(pc.reply) by { Unlocked(cfg, s, t, x); }
    } else {
      Underway(pc);
      GoOnward(cfg, s, t, x);
      Underway(Next(cfg, s, t, x).threads[t].pc);
    }
  }

  lemma Underway(pc: Pc)
    ensures PastCredit(pc) ==> !pc.Finished?
  {
  }

  lemma Unlocked(cfg: Config, s: State, t: nat, x: Input)
    requires t in s.threads && Typed(s.threads[t]) && s.threads[t].pc.Unlocking?
    ensures Next(cfg, s, t, x).threads[t].pc == Finished(s.threads[t].pc.reply)
  {
    hide TableOf;
  }

  lemma {:induction false} RunSettles(cfg: Config, states: seq<State>, events: seq<Event>, i: nat, j: nat, t: nat)
    requires IsRun(cfg, states, events) && i <= j < |states| && LookupsWork(events, t, i, j)
    requires t in states[i].threads && states[i].threads[t].job.CheckStatus? && states[i].threads[t].pc.WantTable?
    requires forall k :: i <= k < j ==> events[k] != Crash(states[i].threads[t].proc)
    ensures t in states[j].threads && states[j].threads[t].job == states[i].threads[t].job
    ensures Settles(states[j].threads[t].pc) && Current(states[j].threads[t])
    decreases j
  {
    hide Inv, Next, Possible, Follows, Settles, Current;
    if i == j {
      StartSettles(states[i].threads[t]);
    } else {
      var s, e := states[j - 1], events[j - 1];
      RunSettles(cfg, states, events, i, j - 1, t);
      CreditedSettles(cfg, states, events, i, j - 1, t);
      RunInv(cfg, states, events, j - 1);
      OneStep(cfg, states, events, j - 1);
      StepSettles(cfg, s, e, states[j], t);
    }
  }

  lemma StartSettles(th: Thread)
    requires th.pc.WantTable?
    ensures Settles(th.pc) && Current(th)
  {
  }

  lemma StepSettles(cfg: Config, s: State, e: Event, s': State, t: nat)
    requires Inv(s) && Follows(cfg, s, e, s') && t in s.threads && e != Crash(s.threads[t].proc)
    requires e.Go? && e.t == t ==> e.input.ok
    requires s.threads[t].job.CheckStatus? && Settles(s.threads[t].pc) && Current(s.threads[t])
    ensures t in s'.threads && s'.threads[t].job == s.threads[t].job
    ensures Settles(s'.threads[t].pc) && Current(s'.threads[t])
  {
    hide Inv, Next, Honest, Settles, Current;
    if e.Go? && e.t == t {
      GoSettles(cfg, s, t, e.input);
      GoCurrent(cfg, s, t, e.input);
    }
  }

  /** A check with a verdict that credits, whose lookups work from then on, answers with
      the stored invoice, settled or expired, if it answers without an error. */
  lemma CreditedAnswer(cfg: Config, states: seq<State>, events: seq<Event>, i: nat, j: nat, t: nat)
    requires IsRun(cfg, states, events) && i <= j < |states| && LookupsWork(events, t, i, j)
    requires t in states[i].threads && states[i].threads[t].job.CheckStatus? && states[i].threads[t].pc.WantTable?
    requires forall k :: i <= k < j ==> events[k] != Crash(states[i].threads[t].proc)
    ensures t in states[j].threads
    ensures var pc, ledger, id := states[j].threads[t].pc, states[j].store.invoices, states[i].threads[t].job.id;
      pc.Finished? && pc.reply.Replied? ==>
        pc.reply.inv.status != Pending && id in ledger && pc.reply.inv == ledger[id]
  {
    hide IsRun;
    RunSettles(cfg, states, events, i, j, t);
    var pc := states[j].threads[t].pc;
    if pc.Finished? && pc.reply.Replied? {
      RepliesAreStored(cfg, states, events, j, t);
    }
  }
}
