/** The settlement protocol of internal/service/service.go as steps of concurrent
    threads. Processes share the store; each has its own keyed locks. A step is one
    call that other threads can see, or one local branch between such calls. */
module Protocol {
  import opened GoText
  import opened Store
  import opened Verifier

  /** Limits of the service, and the processes that have a webhook. */
  datatype Config = Config(maxPending: int, maxPendingPerAddr: int, defaultTTL: int, maxTTL: int, hooked: set<nat>)

  /** A call, once it has passed its guards: payTo is the address to store. */
  datatype Job =
    | CheckStatus(id: string)
    | CreateInvoice(payTo: string, amountNano: int, ttl: int, metadata: map<string, string>)

  /** What a call returns: an invoice, an invoice with an error, or an error. */
  datatype Reply = Replied(inv: Invoice) | StoreError(inv: Invoice) | NotFound | TooMany | InsertError | NoMemo

  /** Where a thread is; tx is the entry it was credited on, of which the code keeps
      the hash. */
  datatype Pc =
      // CheckStatus
    | Reading
    | Verifying(inv: Invoice)
    | WantTable(inv: Invoice, tx: Entry)
    | InTable(inv: Invoice, tx: Entry)
    | WantKey(inv: Invoice, tx: Entry)
    | Rereading(inv: Invoice, tx: Entry)
    | Settling(inv: Invoice, tx: Entry)
    | Claiming(inv: Invoice, tx: Entry, at: int)
    | LostClaim(inv: Invoice)
    | Firing(inv: Invoice)
    | Unlocking(reply: Reply)
    | Timing(inv: Invoice, response: Response)
    | Expiring(inv: Invoice, response: Response, at: int)
    | LostExpiry(inv: Invoice)
      // CreateInvoice
    | Counting
    | Stamping
    | Inserting(draft: Invoice, attempt: nat)
      // both
    | Finished(reply: Reply)

  datatype Thread = Thread(proc: nat, job: Job, started: int, pc: Pc)

  /** The keyed locks of a process: who holds the map's mutex, which keys have a
      mutex, and who holds those. */
  datatype Table = Table(holder: Option<nat>, made: set<string>, held: map<string, nat>)

  /** Why an invoice was paid, the entry it was credited on; or expired, the response
      it was judged on and the clock. */
  datatype Evidence = Credit(entry: Entry) | Lapse(response: Response, at: int)

  datatype State = State(
    store: Mem, chain: Chain, threads: map<nat, Thread>, tables: map<nat, Table>,
    fired: seq<Invoice>,
    // for stating properties: winners that never fire, and why invoices are settled
    unsent: set<string>, why: map<string, Evidence>)

  /** What the environment decides in one step: whether a store call works, the
      response to a request, the clock, and a generated id and memo. */
  datatype Input = Input(ok: bool, response: Response, now: int, id: string, memo: string)

  datatype Event =
    | Spawn(t: nat, proc: nat, job: Job, now: int)
    | Go(t: nat, input: Input)
    | Mine(hash: string, tx: Tx)
    | Crash(proc: nat)

  function Init(durable: bool): State {
    State(New(durable), map[], map[], map[], [], {}, map[])
  }

  /** The locks of a process, made on first use. */
  function TableOf(tables: map<nat, Table>, p: nat): Table {
    if p in tables then tables[p] else Table(None, {}, map[])
  }

  /** GetInvoice: a store that cannot answer looks like a missing invoice. */
  function Get(m: Mem, id: string, ok: bool): Option<Invoice> {
    if ok && id in m.invoices then Some(m.invoices[id]) else None
  }

  function Clamp(cfg: Config, ttl: int): int {
    var t := if ttl <= 0 then cfg.defaultTTL else ttl;
    if t > cfg.maxTTL then cfg.maxTTL else t
  }

  /** The lesser of the time asked for, or the default for none, and the limit. */
  predicate IsDeadline(cfg: Config, ttl: int, created: int, deadline: int) {
    var wanted := if ttl > 0 then ttl else cfg.defaultTTL;
    && (wanted <= cfg.maxTTL ==> deadline == created + wanted)
    && (wanted > cfg.maxTTL ==> deadline == created + cfg.maxTTL)
  }

  /** The draft of an invoice, before its id and memo are drawn. */
  function Draft(cfg: Config, job: Job, now: int): Invoice
    requires job.CreateInvoice?
  {
    Invoice("", job.payTo, "", job.amountNano, "TON", Pending, "", job.metadata, now, ZERO_TIME, now + Clamp(cfg, job.ttl))
  }

  /** A draft with the id and memo that were drawn for it. */
  function Drawn(draft: Invoice, id: string, memo: string): Invoice {
    draft.(id := id, memo := memo)
  }

  predicate Overdue(inv: Invoice, now: int) {
    inv.expiresAt != ZERO_TIME && now > inv.expiresAt
  }

  /** A cap of zero or less is no cap. */
  predicate AtCap(cap: int, count: int) {
    cap > 0 && count >= cap
  }

  predicate OverCap(cfg: Config, total: int, forAddr: int) {
    AtCap(cfg.maxPending, total) || AtCap(cfg.maxPendingPerAddr, forAddr)
  }

  function StartPc(job: Job): Pc {
    if job.CheckStatus? then Reading else Counting
  }

  // ---- Steps of one thread ----

  /** Steps that change nothing shared. */
  predicate IsLocal(pc: Pc) {
    pc.Reading? || pc.Verifying? || pc.Rereading? || pc.Settling? || pc.LostClaim? || pc.Timing? || pc.LostExpiry?
    || pc.Counting? || pc.Stamping?
  }

  /** Which kind of job a step belongs to. */
  predicate Typed(th: Thread) {
    if th.job.CheckStatus? then !th.pc.Counting? && !th.pc.Stamping? && !th.pc.Inserting?
    else th.pc.Counting? || th.pc.Stamping? || th.pc.Inserting? || th.pc.Finished?
  }

  function LocalNext(cfg: Config, m: Mem, th: Thread, x: Input): Pc
    requires IsLocal(th.pc) && Typed(th)
  {
    match th.pc
    case Reading =>
      var got := Get(m, th.job.id, x.ok);
      if got.None? then Finished(NotFound)
      else if got.value.status != Pending then Finished(Replied(got.value))
      else Verifying(got.value)
    case Verifying(inv) =>
      var verdict := Judge(inv, x.response);
      if verdict.Credited? then WantTable(inv, Shown(inv, x.response)) else Timing(inv, x.response)
    case Rereading(inv, tx) =>
      var got := Get(m, th.job.id, x.ok);
      if got.None? then Unlocking(NotFound)
      else if got.value.status != Pending then Unlocking(Replied(got.value))
      else Settling(got.value, tx)
    case Settling(inv, tx) => Claiming(inv, tx, x.now)
    case LostClaim(inv) =>
      var got := Get(m, inv.id, x.ok);
      Unlocking(Replied(if got.Some? then got.value else inv))
    case Timing(inv, response) =>
      if Overdue(inv, x.now) then Expiring(inv, response, x.now) else Finished(Replied(inv))
    case LostExpiry(inv) =>
      var got := Get(m, inv.id, x.ok);
      Finished(Replied(if got.Some? then got.value else inv))
    case Counting =>
      if cfg.maxPending <= 0 && cfg.maxPendingPerAddr <= 0 then Stamping
      else if !x.ok then Finished(InsertError)
      else if OverCap(cfg, |PendingOf(m.invoices)|, |PendingFor(m.invoices, th.job.payTo)|) then Finished(TooMany)
      else Stamping
    case Stamping => Inserting(Draft(cfg, th.job, x.now), 0)
  }

  /** What the environment cannot do: grant a held lock, answer with untrue entries,
      run a thread's clock backward, or draw a used id. */
  ghost predicate Enabled(s: State, t: nat, x: Input) {
    t in s.threads && Typed(s.threads[t]) &&
    var th := s.threads[t];
    match th.pc
    case WantTable(_, _) => TableOf(s.tables, th.proc).holder.None?
    case WantKey(inv, _) => inv.id !in TableOf(s.tables, th.proc).held
    case Verifying(inv) => Honest(s.chain, inv.payTo, x.response)
    case Timing(_, _) => x.now >= th.started
    case Inserting(_, _) => x.id !in s.store.invoices
    case Finished(_) => false
    case _ => true
  }

  function At(s: State, t: nat, pc: Pc): State
    requires t in s.threads
  {
    s.(threads := s.threads[t := s.threads[t].(pc := pc)])
  }

  function Locked(s: State, p: nat, table: Table): State {
    s.(tables := s.tables[p := table])
  }

  /** Only thread t has moved, and only to another program point. */
  ghost predicate OnlyMoved(s: State, s': State, t: nat)
    requires t in s.threads
  {
    t in s'.threads && s'.threads == s.threads[t := s.threads[t].(pc := s'.threads[t].pc)]
  }

  function ClaimStep(cfg: Config, s: State, t: nat, ok: bool): (s': State)
    requires t in s.threads && s.threads[t].pc.Claiming?
    ensures OnlyMoved(s, s', t)
  {
    var pc, hooked := s.threads[t].pc, s.threads[t].proc in cfg.hooked;
    var (m, outcome) := Claim(s.store, pc.inv.id, pc.tx.hash, pc.at, ok);
    var paid := Settled(pc.inv, pc.tx.hash, pc.at);
    match outcome
    case Done =>
      At(s.(store := m, unsent := if hooked then s.unsent else s.unsent + {pc.inv.id}, why := s.why[pc.inv.id := Credit(pc.tx)]), t,
         if hooked then Firing(paid) else Unlocking(Replied(paid)))
    case Refused => At(s.(store := m), t, LostClaim(pc.inv))
    case Failed => At(s.(store := m), t, Unlocking(StoreError(pc.inv)))
  }

  function ExpireStep(s: State, t: nat, ok: bool): (s': State)
    requires t in s.threads && s.threads[t].pc.Expiring?
    ensures OnlyMoved(s, s', t)
  {
    var pc := s.threads[t].pc;
    var (m, outcome) := Expire(s.store, pc.inv.id, ok);
    match outcome
    case Done =>
      At(s.(store := m, why := s.why[pc.inv.id := Lapse(pc.response, pc.at)]), t, Finished(Replied(Lapsed(pc.inv))))
    case Refused => At(s.(store := m), t, LostExpiry(pc.inv))
    case Failed => At(s.(store := m), t, Finished(StoreError(pc.inv)))
  }

  const ATTEMPTS := 5

  function InsertStep(s: State, t: nat, x: Input): (s': State)
    requires t in s.threads && s.threads[t].pc.Inserting?
    ensures OnlyMoved(s, s', t)
  {
    var pc := s.threads[t].pc;
    var inv := Drawn(pc.draft, x.id, x.memo);
    var (m, outcome) := Create(s.store, inv, x.ok);
    match outcome
    case Done => At(s.(store := m), t, Finished(Replied(inv)))
    case Refused =>
      At(s.(store := m), t, if pc.attempt + 1 < ATTEMPTS then Inserting(pc.draft, pc.attempt + 1) else Finished(NoMemo))
    case Failed => At(s.(store := m), t, Finished(InsertError))
  }

  /** Steps of keyedLocks.lock and its unlock. */
  function LockStep(s: State, t: nat): (s': State)
    requires t in s.threads && Typed(s.threads[t])
    requires var pc := s.threads[t].pc; pc.WantTable? || pc.InTable? || pc.WantKey? || pc.Unlocking?
    ensures OnlyMoved(s, s', t)
  {
    var th := s.threads[t];
    var table := TableOf(s.tables, th.proc);
    match th.pc
    case WantTable(inv, tx) => At(Locked(s, th.proc, table.(holder := Some(t))), t, InTable(inv, tx))
    case InTable(inv, tx) =>
      At(Locked(s, th.proc, table.(holder := None, made := table.made + {inv.id})), t, WantKey(inv, tx))
    case WantKey(inv, tx) => At(Locked(s, th.proc, table.(held := table.held[inv.id := t])), t, Rereading(inv, tx))
    case Unlocking(reply) => At(Locked(s, th.proc, table.(held := table.held - {th.job.id})), t, Finished(reply))
  }

  function Next(cfg: Config, s: State, t: nat, x: Input): (s': State)
    requires t in s.threads && Typed(s.threads[t]) && !s.threads[t].pc.Finished?
    ensures OnlyMoved(s, s', t)
  {
    var th := s.threads[t];
    if IsLocal(th.pc) then At(s, t, LocalNext(cfg, s.store, th, x))
    else if th.pc.Claiming? then ClaimStep(cfg, s, t, x.ok)
    else if th.pc.Expiring? then ExpireStep(s, t, x.ok)
    else if th.pc.Inserting? then InsertStep(s, t, x)
    else if th.pc.Firing? then At(s.(fired := s.fired + [th.pc.inv]), t, Unlocking(Replied(th.pc.inv)))
    else LockStep(s, t)
  }

  // ---- Events ----

  /** A thread that has claimed an invoice and not yet notified. */
  predicate Winning(th: Thread, id: string) {
    th.pc.Firing? && th.pc.inv.id == id
  }

  function Survivors(s: State, p: nat): map<nat, Thread> {
    map t | t in s.threads && s.threads[t].proc != p :: s.threads[t]
  }

  /** Invoices whose notification dies with a process. */
  function Dropped(s: State, p: nat): set<string> {
    set t | t in s.threads && s.threads[t].proc == p && s.threads[t].pc.Firing? :: s.threads[t].pc.inv.id
  }

  /** What can happen next. A creation begins with its address resolved: any is allowed
      here, also those that the service never stores. */
  ghost predicate Possible(s: State, e: Event) {
    match e
    case Spawn(t, _, job, _) => t !in s.threads && (job.CreateInvoice? ==> job.amountNano > 0 && job.payTo != "")
    case Go(t, x) => Enabled(s, t, x)
    case Mine(hash, _) => hash !in s.chain
    case Crash(_) => true
  }

  function Step(cfg: Config, s: State, e: Event): State
    requires e.Go? ==> e.t in s.threads && Typed(s.threads[e.t]) && !s.threads[e.t].pc.Finished?
  {
    match e
    case Spawn(t, p, job, now) => s.(threads := s.threads[t := Thread(p, job, now, StartPc(job))])
    case Go(t, x) => Next(cfg, s, t, x)
    case Mine(hash, tx) => s.(chain := s.chain[hash := tx])
    case Crash(p) => s.(threads := Survivors(s, p), tables := s.tables - {p}, unsent := s.unsent + Dropped(s, p))
  }

  ghost predicate Follows(cfg: Config, s: State, e: Event, s': State) {
    Possible(s, e) && s' == Step(cfg, s, e)
  }

  /** Any interleaving, from an empty store. */
  ghost predicate IsRun(cfg: Config, states: seq<State>, events: seq<Event>) {
    && |states| == |events| + 1
    && (exists durable :: states[0] == Init(durable))
    && forall i :: 0 <= i < |events| ==> Follows(cfg, states[i], events[i], states[i + 1])
  }
}
