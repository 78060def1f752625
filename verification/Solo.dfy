/** A call that runs alone through the steps of the protocol does what the sequential
    code does. */
module Solo {
  import opened GoText
  import opened Store
  import opened Verifier
  import opened Protocol
  import opened Settlement
  import opened Preservation
  import opened Progress
  import opened Outcomes

  /** What a step of the protocol meets, when a call meets env and, if it creates an
      invoice, those draws. */
  function InputFor(pc: Pc, env: Env, draws: seq<Draw>): Input {
    if pc.Inserting? && pc.attempt < |draws| then
      Input(draws[pc.attempt].diskOk, None, env.now, draws[pc.attempt].id, draws[pc.attempt].memo)
    else
      Input((pc.Claiming? || pc.Expiring?) ==> env.diskOk, env.response, env.now, "", "")
  }

  predicate Live(s: State, t: nat) {
    t in s.threads && Typed(s.threads[t]) && (s.threads[t].pc.Inserting? ==> s.threads[t].pc.attempt < ATTEMPTS)
  }

  function OneMore(cfg: Config, s: State, t: nat, env: Env, draws: seq<Draw>): State
    requires Live(s, t) && !s.threads[t].pc.Finished?
  {
    Next(cfg, s, t, InputFor(s.threads[t].pc, env, draws))
  }

  lemma StillLive(cfg: Config, s: State, t: nat, env: Env, draws: seq<Draw>)
    requires Live(s, t) && !s.threads[t].pc.Finished?
    ensures Live(OneMore(cfg, s, t, env, draws), t)
    ensures 0 <= Rank(OneMore(cfg, s, t, env, draws).threads[t].pc) < Rank(s.threads[t].pc)
  {
    hide Claim, Expire, TableOf, LocalNext, Get, Rank, Next;
    RankFalls(cfg, s, t, InputFor(s.threads[t].pc, env, draws));
    NextTyped(cfg, s, t, InputFor(s.threads[t].pc, env, draws));
    TypedRank(OneMore(cfg, s, t, env, draws).threads[t]);
  }

  lemma TypedRank(th: Thread)
    requires th.pc.Inserting? ==> th.pc.attempt < ATTEMPTS
    ensures Rank(th.pc) >= 0
  {
  }

  lemma NextTyped(cfg: Config, s: State, t: nat, x: Input)
    requires Live(s, t) && !s.threads[t].pc.Finished?
    ensures Live(Next(cfg, s, t, x), t)
  {
    hide Claim, Expire, Create, TableOf, LocalNext, Get, LockStep, ClaimStep, ExpireStep, InsertStep;
    var th := s.threads[t];
    if IsLocal(th.pc) {
      LocalRoles(cfg, s.store, th, x);
      LocalLive(cfg, s.store, th, x);
    } else if th.pc.Claiming? {
      ClaimLive(cfg, s, t, x.ok);
    } else if th.pc.Expiring? {
      ExpireLive(s, t, x.ok);
    } else if th.pc.Inserting? {
      InsertLive(s, t, x);
    } else if !th.pc.Firing? {
      LockLive(s, t);
    }
  }

  lemma LocalLive(cfg: Config, m: Mem, th: Thread, x: Input)
    requires IsLocal(th.pc) && Typed(th)
    ensures var pc := LocalNext(cfg, m, th, x); pc.Inserting? ==> pc.attempt < ATTEMPTS
  {
    hide Get, Judge, Draft, OverCap, Overdue;
  }

  lemma ClaimLive(cfg: Config, s: State, t: nat, ok: bool)
    requires Live(s, t) && s.threads[t].pc.Claiming?
    ensures Live(ClaimStep(cfg, s, t, ok), t)
  {
    hide Claim, OnlyMoved;
  }

  lemma ExpireLive(s: State, t: nat, ok: bool)
    requires Live(s, t) && s.threads[t].pc.Expiring?
    ensures Live(ExpireStep(s, t, ok), t)
  {
    hide Expire, OnlyMoved;
  }

  lemma InsertLive(s: State, t: nat, x: Input)
    requires Live(s, t) && s.threads[t].pc.Inserting?
    ensures Live(InsertStep(s, t, x), t)
  {
    hide Create, OnlyMoved;
  }

  lemma LockLive(s: State, t: nat)
    requires Live(s, t) && IsLockStep(s.threads[t].pc)
    ensures Live(LockStep(s, t), t)
  {
    hide TableOf, OnlyMoved;
  }

  /** Where thread t ends when only it runs. */
  ghost function Drive(cfg: Config, s: State, t: nat, env: Env, draws: seq<Draw>): State
    requires Live(s, t)
    decreases Rank(s.threads[t].pc)
  {
    if s.threads[t].pc.Finished? then s
    else
      StillLive(cfg, s, t, env, draws);
      Drive(cfg, OneMore(cfg, s, t, env, draws), t, env, draws)
  }

  /** Each of its steps is one the environment allows. */
  ghost predicate Runnable(cfg: Config, s: State, t: nat, env: Env, draws: seq<Draw>)
    requires Live(s, t)
    decreases Rank(s.threads[t].pc)
  {
    s.threads[t].pc.Finished? ||
    (StillLive(cfg, s, t, env, draws);
     Enabled(s, t, InputFor(s.threads[t].pc, env, draws)) && Runnable(cfg, OneMore(cfg, s, t, env, draws), t, env, draws))
  }

  /** The solo run from here is possible and ends in a given way. */
  ghost predicate Ends(cfg: Config, s: State, t: nat, env: Env, draws: seq<Draw>, r: Checked)
    requires Live(s, t)
  {
    var s' := Drive(cfg, s, t, env, draws);
    && Runnable(cfg, s, t, env, draws)
    && s'.store == r.store && s'.fired == s.fired + r.sent && s'.chain == s.chain
    && t in s'.threads && s'.threads == s.threads[t := s.threads[t].(pc := Finished(r.reply))]
  }

  /** One step, and then the rest. */
  lemma EndsStep(cfg: Config, s: State, t: nat, env: Env, draws: seq<Draw>, r: Checked, sent: seq<Invoice>)
    requires Live(s, t) && !s.threads[t].pc.Finished?
    requires Enabled(s, t, InputFor(s.threads[t].pc, env, draws))
    requires var s' := OneMore(cfg, s, t, env, draws);
      Live(s', t) && s'.fired == s.fired + sent && s'.chain == s.chain && Ends(cfg, s', t, env, draws, r)
    ensures Ends(cfg, s, t, env, draws, r.(sent := sent + r.sent))
  {
    hide Enabled, Next, Typed;
    var s' := OneMore(cfg, s, t, env, draws);
    assert OnlyMoved(s, s', t);
    assert s.threads[t := s.threads[t].(pc := s'.threads[t].pc)][t := s.threads[t].(pc := Finished(r.reply))]
        == s.threads[t := s.threads[t].(pc := Finished(r.reply))];
    assert s.fired + sent + r.sent == s.fired + (sent + r.sent);
  }

  /** A step that sends nothing. */
  lemma EndsQuietly(cfg: Config, s: State, t: nat, env: Env, draws: seq<Draw>, r: Checked)
    requires Live(s, t) && !s.threads[t].pc.Finished?
    requires Enabled(s, t, InputFor(s.threads[t].pc, env, draws))
    requires var s' := OneMore(cfg, s, t, env, draws);
      Live(s', t) && s'.fired == s.fired && s'.chain == s.chain && Ends(cfg, s', t, env, draws, r)
    ensures Ends(cfg, s, t, env, draws, r)
  {
    hide Enabled, Next, Typed, Ends;
    EndsStep(cfg, s, t, env, draws, r, []);
    assert [] + r.sent == r.sent;
  }

  lemma AtEnd(cfg: Config, s: State, t: nat, env: Env, draws: seq<Draw>, reply: Reply)
    requires Live(s, t) && s.threads[t].pc == Finished(reply)
    ensures Ends(cfg, s, t, env, draws, Checked(s.store, [], reply))
  {
  }

  lemma FromUnlocking(cfg: Config, s: State, t: nat, env: Env, draws: seq<Draw>, reply: Reply)
    requires Live(s, t) && s.threads[t].pc == Unlocking(reply)
    ensures Ends(cfg, s, t, env, draws, Checked(s.store, [], reply))
  {
    hide Ends, TableOf;
    var s' := OneMore(cfg, s, t, env, draws);
    AtEnd(cfg, s', t, env, draws, reply);
    EndsQuietly(cfg, s, t, env, draws, Checked(s.store, [], reply));
  }

  lemma FromFiring(cfg: Config, s: State, t: nat, env: Env, draws: seq<Draw>, inv: Invoice)
    requires Live(s, t) && s.threads[t].pc == Firing(inv)
    ensures Ends(cfg, s, t, env, draws, Checked(s.store, [inv], Replied(inv)))
  {
    hide Ends;
    var s' := OneMore(cfg, s, t, env, draws);
    FromUnlocking(cfg, s', t, env, draws, Replied(inv));
    EndsStep(cfg, s, t, env, draws, Checked(s.store, [], Replied(inv)), [inv]);
    assert [inv] + [] == [inv];
  }

  lemma FromClaiming(cfg: Config, s: State, t: nat, env: Env, draws: seq<Draw>, inv: Invoice, tx: Entry)
    requires Live(s, t) && s.threads[t].pc == Claiming(inv, tx, env.now)
    requires IsPending(s.store.invoices, inv.id)
    ensures Ends(cfg, s, t, env, draws, Settle(s.store, inv, tx.hash, s.threads[t].proc in cfg.hooked, env))
  {
    hide Ends, Move;
    var s', hooked := OneMore(cfg, s, t, env, draws), s.threads[t].proc in cfg.hooked;
    var r := Settle(s.store, inv, tx.hash, hooked, env);
    MoveEffect(s.store, ClaimOp(inv.id, tx.hash, env.now), env.diskOk);
    if r.reply.StoreError? {
      FromUnlocking(cfg, s', t, env, draws, r.reply);
      EndsQuietly(cfg, s, t, env, draws, r);
    } else if hooked {
      FromFiring(cfg, s', t, env, draws, Settled(inv, tx.hash, env.now));
      EndsQuietly(cfg, s, t, env, draws, r);
    } else {
      FromUnlocking(cfg, s', t, env, draws, r.reply);
      EndsQuietly(cfg, s, t, env, draws, r);
    }
  }

  lemma FromRereading(cfg: Config, s: State, t: nat, env: Env, draws: seq<Draw>, inv: Invoice, tx: Entry)
    requires Live(s, t) && s.threads[t].pc == Rereading(inv, tx)
    requires var id := s.threads[t].job.id; IsPending(s.store.invoices, id) && inv == s.store.invoices[id] && inv.id == id
    ensures Ends(cfg, s, t, env, draws, Settle(s.store, inv, tx.hash, s.threads[t].proc in cfg.hooked, env))
  {
    hide Ends, Settle;
    var s1 := OneMore(cfg, s, t, env, draws);
    var s2 := OneMore(cfg, s1, t, env, draws);
    var r := Settle(s.store, inv, tx.hash, s.threads[t].proc in cfg.hooked, env);
    FromClaiming(cfg, s2, t, env, draws, inv, tx);
    EndsQuietly(cfg, s1, t, env, draws, r);
    EndsQuietly(cfg, s, t, env, draws, r);
  }

  /** The locks that the check will take are free. */
  predicate LocksFree(s: State, t: nat)
    requires Live(s, t)
  {
    var table := TableOf(s.tables, s.threads[t].proc);
    table.holder.None? && (s.threads[t].job.CheckStatus? ==> s.threads[t].job.id !in table.held)
  }

  lemma FromWantKey(cfg: Config, s: State, t: nat, env: Env, draws: seq<Draw>, inv: Invoice, tx: Entry)
    requires Live(s, t) && s.threads[t].pc == WantKey(inv, tx) && LocksFree(s, t)
    requires var id := s.threads[t].job.id; IsPending(s.store.invoices, id) && inv == s.store.invoices[id] && inv.id == id
    ensures Ends(cfg, s, t, env, draws, Settle(s.store, inv, tx.hash, s.threads[t].proc in cfg.hooked, env))
  {
    hide Ends, Settle;
    var s' := OneMore(cfg, s, t, env, draws);
    FromRereading(cfg, s', t, env, draws, inv, tx);
    EndsQuietly(cfg, s, t, env, draws, Settle(s.store, inv, tx.hash, s.threads[t].proc in cfg.hooked, env));
  }

  lemma FromWantTable(cfg: Config, s: State, t: nat, env: Env, draws: seq<Draw>, inv: Invoice, tx: Entry)
    requires Live(s, t) && s.threads[t].pc == WantTable(inv, tx) && LocksFree(s, t)
    requires var id := s.threads[t].job.id; IsPending(s.store.invoices, id) && inv == s.store.invoices[id] && inv.id == id
    ensures Ends(cfg, s, t, env, draws, Settle(s.store, inv, tx.hash, s.threads[t].proc in cfg.hooked, env))
  {
    hide Ends, Settle;
    var s1 := OneMore(cfg, s, t, env, draws);
    var s2 := OneMore(cfg, s1, t, env, draws);
    var r := Settle(s.store, inv, tx.hash, s.threads[t].proc in cfg.hooked, env);
    FromWantKey(cfg, s2, t, env, draws, inv, tx);
    EndsQuietly(cfg, s1, t, env, draws, r);
    EndsQuietly(cfg, s, t, env, draws, r);
  }

  lemma FromExpiring(cfg: Config, s: State, t: nat, env: Env, draws: seq<Draw>, inv: Invoice)
    requires Live(s, t) && s.threads[t].pc == Expiring(inv, env.response, env.now)
    requires IsPending(s.store.invoices, inv.id)
    ensures Ends(cfg, s, t, env, draws, ExpireNow(s.store, inv, env))
  {
    hide Ends, Move;
    var s', r := OneMore(cfg, s, t, env, draws), ExpireNow(s.store, inv, env);
    MoveEffect(s.store, ExpireOp(inv.id), env.diskOk);
    AtEnd(cfg, s', t, env, draws, r.reply);
    EndsQuietly(cfg, s, t, env, draws, r);
  }

  lemma FromTiming(cfg: Config, s: State, t: nat, env: Env, draws: seq<Draw>, inv: Invoice)
    requires Live(s, t) && s.threads[t].pc == Timing(inv, env.response) && env.now >= s.threads[t].started
    requires IsPending(s.store.invoices, inv.id)
    ensures Ends(cfg, s, t, env, draws,
      if Overdue(inv, env.now) then ExpireNow(s.store, inv, env) else Checked(s.store, [], Replied(inv)))
  {
    hide Ends, ExpireNow;
    var s' := OneMore(cfg, s, t, env, draws);
    if Overdue(inv, env.now) {
      FromExpiring(cfg, s', t, env, draws, inv);
      EndsQuietly(cfg, s, t, env, draws, ExpireNow(s.store, inv, env));
    } else {
      AtEnd(cfg, s', t, env, draws, Replied(inv));
      EndsQuietly(cfg, s, t, env, draws, Checked(s.store, [], Replied(inv)));
    }
  }

  lemma FromVerifying(cfg: Config, s: State, t: nat, env: Env, draws: seq<Draw>, inv: Invoice)
    requires Live(s, t) && s.threads[t].pc == Verifying(inv) && LocksFree(s, t)
    requires Honest(s.chain, inv.payTo, env.response) && env.now >= s.threads[t].started
    requires var id := s.threads[t].job.id; IsPending(s.store.invoices, id) && inv == s.store.invoices[id] && inv.id == id
    ensures Ends(cfg, s, t, env, draws, Check(s.store, inv.id, s.threads[t].proc in cfg.hooked, env))
  {
    hide Ends, ExpireNow, Settle, Honest, Judge, Shown, FirstMatch;
    var s' := OneMore(cfg, s, t, env, draws);
    var r := Check(s.store, inv.id, s.threads[t].proc in cfg.hooked, env);
    var verdict := Judge(inv, env.response);
    if verdict.Credited? {
      FromWantTable(cfg, s', t, env, draws, inv, Shown(inv, env.response));
      EndsQuietly(cfg, s, t, env, draws, r);
    } else {
      FromTiming(cfg, s', t, env, draws, inv);
      EndsQuietly(cfg, s, t, env, draws, r);
    }
  }

  /** Run without interruption, the steps of the protocol are the sequential check:
      same store, same notifications, same reply. */
  lemma SoloCheck(cfg: Config, s: State, t: nat, env: Env, draws: seq<Draw>)
    requires Inv(s) && Live(s, t) && s.threads[t].pc == Reading && LocksFree(s, t) && env.now >= s.threads[t].started
    requires var id := s.threads[t].job.id;
      id in s.store.invoices ==> Honest(s.chain, s.store.invoices[id].payTo, env.response)
    ensures Ends(cfg, s, t, env, draws, Check(s.store, s.threads[t].job.id, s.threads[t].proc in cfg.hooked, env))
  {
    hide Ends, ExpireNow, Settle, Honest, Judge, ThreadsOk, AllJustified, LocksOk, AllOnce, FiredOk, Indexed, KeyOf;
    var id := s.threads[t].job.id;
    var s' := OneMore(cfg, s, t, env, draws);
    var r := Check(s.store, id, s.threads[t].proc in cfg.hooked, env);
    if IsPending(s.store.invoices, id) {
      FromVerifying(cfg, s', t, env, draws, s.store.invoices[id]);
    } else {
      AtEnd(cfg, s', t, env, draws, r.reply);
    }
    EndsQuietly(cfg, s, t, env, draws, r);
  }

  // ---- Creating ----

  function ReplyOf(c: Created): Reply {
    match c
    case Created(inv) => Replied(inv)
    case Rejected(WriteFailed) => InsertError
    case Rejected(MemosTaken) => NoMemo
    case Rejected(_) => TooMany
  }

  function Inserted(r: (Mem, Created)): Checked {
    Checked(r.0, [], ReplyOf(r.1))
  }

  /** One attempt, in both descriptions. */
  lemma InsertFirst(m: Mem, draft: Invoice, left: seq<Draw>)
    requires |left| > 0 && left[0].id !in m.invoices
    ensures var (m', outcome) := Create(m, With(draft, left[0]), left[0].diskOk);
      && (outcome.Done? ==> Insert(m, draft, left) == (m', Created(With(draft, left[0]))))
      && (outcome.Failed? ==> Insert(m, draft, left) == (m, Rejected(WriteFailed)))
      && (outcome.Refused? ==> m' == m && Insert(m, draft, left) == Insert(m, draft, left[1..]))
      && (outcome.Refused? && |left| == 1 ==> Insert(m, draft, left) == (m, Rejected(MemosTaken)))
  {
    hide Create;
    InsertEffect(m, With(draft, left[0]), left[0].diskOk);
  }

  /** Where an attempt leads. */
  function AfterDraw(outcome: Outcome, draft: Invoice, attempt: nat, d: Draw): Pc {
    match outcome
    case Done => Finished(Replied(With(draft, d)))
    case Failed => Finished(InsertError)
    case Refused => if attempt + 1 < ATTEMPTS then Inserting(draft, attempt + 1) else Finished(NoMemo)
  }

  lemma InsertStepGoes(s: State, t: nat, x: Input, draft: Invoice, attempt: nat, d: Draw)
    requires t in s.threads && s.threads[t].pc == Inserting(draft, attempt)
    requires x.id == d.id && x.memo == d.memo && x.ok == d.diskOk
    ensures var s', (m, outcome) := InsertStep(s, t, x), Create(s.store, With(draft, d), d.diskOk);
      && s'.store == m && s'.fired == s.fired && s'.chain == s.chain
      && s'.threads[t].pc == AfterDraw(outcome, draft, attempt, d)
  {
    hide Create, OnlyMoved, Drawn;
    var outcome := Create(s.store, With(draft, d), d.diskOk).1;
    assert InsertStep(s, t, x).threads[t] == s.threads[t].(pc := AfterDraw(outcome, draft, attempt, d));
  }

  lemma InsertGoes(cfg: Config, s: State, t: nat, env: Env, draws: seq<Draw>, draft: Invoice, attempt: nat)
    requires Live(s, t) && s.threads[t].pc == Inserting(draft, attempt) && |draws| == ATTEMPTS
    requires draws[attempt].id !in s.store.invoices
    ensures Enabled(s, t, InputFor(s.threads[t].pc, env, draws))
    ensures var s' := OneMore(cfg, s, t, env, draws);
      var (m, outcome) := Create(s.store, With(draft, draws[attempt]), draws[attempt].diskOk);
      && Live(s', t) && s'.store == m && s'.fired == s.fired && s'.chain == s.chain
      && s'.threads[t].pc == AfterDraw(outcome, draft, attempt, draws[attempt])
  {
    hide Create, InsertStep, OnlyMoved, AfterDraw, Live;
    LiveAttempt(s, t);
    var x := InputFor(s.threads[t].pc, env, draws);
    InsertStepGoes(s, t, x, draft, attempt, draws[attempt]);
    NextTyped(cfg, s, t, x);
  }

  lemma LiveAttempt(s: State, t: nat)
    requires Live(s, t)
    ensures t in s.threads && Typed(s.threads[t]) && (s.threads[t].pc.Inserting? ==> s.threads[t].pc.attempt < ATTEMPTS)
  {
  }

  lemma {:induction false} FromInserting(cfg: Config, s: State, t: nat, env: Env, draws: seq<Draw>, draft: Invoice, attempt: nat)
    requires Live(s, t) && s.threads[t].pc == Inserting(draft, attempt) && |draws| == ATTEMPTS
    requires forall i :: attempt <= i < ATTEMPTS ==> draws[i].id !in s.store.invoices
    ensures Ends(cfg, s, t, env, draws, Inserted(Insert(s.store, draft, draws[attempt..])))
    decreases ATTEMPTS - attempt
  {
    hide Ends, Create, KeyOf, Insert, InsertStep, OnlyMoved, Next, Enabled, InputFor;
    var s', d, left := OneMore(cfg, s, t, env, draws), draws[attempt], draws[attempt..];
    var outcome := Create(s.store, With(draft, d), d.diskOk).1;
    assert left[0] == d && left[1..] == draws[attempt + 1..];
    InsertFirst(s.store, draft, left);
    InsertEffect(s.store, With(draft, d), d.diskOk);
    InsertGoes(cfg, s, t, env, draws, draft, attempt);
    if outcome.Refused? && attempt + 1 < ATTEMPTS {
      FromInserting(cfg, s', t, env, draws, draft, attempt + 1);
    } else {
      AtEnd(cfg, s', t, env, draws, s'.threads[t].pc.reply);
    }
    EndsQuietly(cfg, s, t, env, draws, Inserted(Insert(s.store, draft, left)));
  }

  /** So too for a creation: the caps first, and then the retry loop. */
  lemma SoloCreate(cfg: Config, s: State, t: nat, env: Env, draws: seq<Draw>)
    requires Live(s, t) && s.threads[t].pc == Counting && |draws| == ATTEMPTS
    requires forall d :: d in draws ==> d.id !in s.store.invoices
    ensures var job := s.threads[t].job;
      var over := CapError(cfg, s.store.invoices, job.payTo);
      Ends(cfg, s, t, env, draws,
        if over.Some? then Checked(s.store, [], TooMany) else Inserted(Insert(s.store, Draft(cfg, job, env.now), draws)))
  {
    hide Ends, Insert, PendingOf, PendingFor;
    var s1, job := OneMore(cfg, s, t, env, draws), s.threads[t].job;
    if CapError(cfg, s.store.invoices, job.payTo).Some? {
      AtEnd(cfg, s1, t, env, draws, TooMany);
      EndsQuietly(cfg, s, t, env, draws, Checked(s.store, [], TooMany));
    } else {
      var s2 := OneMore(cfg, s1, t, env, draws);
      var r := Inserted(Insert(s.store, Draft(cfg, job, env.now), draws));
      assert draws[0..] == draws;
      FromInserting(cfg, s2, t, env, draws, Draft(cfg, job, env.now), 0);
      EndsQuietly(cfg, s1, t, env, draws, r);
      EndsQuietly(cfg, s, t, env, draws, r);
    }
  }
}
