/** Crash recovery of the Memory store: what a restart finds on disk. */
module Recovery {
  import opened GoText
  import opened Store

  /** Only the in-memory state, which an operation that is acknowledged leads to. */
  function Ideal(ops: seq<Op>): Mem {
    if ops == [] then New(false) else Apply(Ideal(ops[..|ops| - 1]), ops[|ops| - 1], true).0
  }

  /** The life of a store directory: operations whose write succeeds or fails, and
      restarts that may cut an operation short before or after its write. */
  datatype Event =
    | Run(op: Op, diskOk: bool)
    | Restart(inFlight: Option<Op>, written: bool)

  function ReadBack(disk: Option<Ledger>): Ledger {
    if disk.Some? then disk.value else map[]
  }

  function OnDisk(m: Mem, op: Op, written: bool): Option<Ledger> {
    if written then Apply(m, op, true).0.disk else m.disk
  }

  /** A store loaded from a snapshot file. */
  ghost predicate Loaded(m: Mem, disk: Option<Ledger>) {
    m.durable && m.disk == disk && m.invoices == ReadBack(disk) && IsIndex(m.memos, m.invoices)
  }

  ghost predicate Step(m: Mem, e: Event, m': Mem) {
    match e
    case Run(op, diskOk) => m' == Apply(m, op, diskOk).0
    case Restart(inFlight, written) =>
      Loaded(m', if inFlight.Some? then OnDisk(m, inFlight.value, written) else m.disk)
  }

  /** An insert that does not overwrite an invoice: its id is fresh, or it is refused
      because its memo is taken. */
  ghost predicate SafeOp(m: Mem, op: Op) {
    op.CreateOp? ==> op.inv.id !in m.invoices || KeyOf(op.inv) in m.memos
  }

  /** No insert overwrites an invoice, unless a restart undoes it. */
  ghost predicate Safe(m: Mem, e: Event) {
    match e
    case Run(op, _) => SafeOp(m, op)
    case Restart(inFlight, written) => inFlight.Some? && written ==> SafeOp(m, inFlight.value)
  }

  ghost predicate History(states: seq<Mem>, events: seq<Event>) {
    && |states| == |events| + 1
    && states[0] == New(true)
    && forall i :: 0 <= i < |events| ==> Step(states[i], events[i], states[i + 1])
  }

  /** The operations a client has reason to believe in: those acknowledged, and those
      in flight at a restart that had been written. */
  function Effective(e: Event): seq<Op> {
    match e
    case Run(op, diskOk) => if diskOk then [op] else []
    case Restart(inFlight, written) => if inFlight.Some? && written then [inFlight.value] else []
  }

  function AllEffective(events: seq<Event>): seq<Op> {
    if events == [] then [] else AllEffective(events[..|events| - 1]) + Effective(events[|events| - 1])
  }

  ghost predicate Agrees(m: Mem, ideal: Mem) {
    && m.durable && !ideal.durable
    && m.invoices == ideal.invoices && m.memos == ideal.memos
    && ReadBack(m.disk) == m.invoices
    && IsIndex(m.memos, m.invoices) && Distinct(m.invoices)
  }

  lemma IdealSnoc(ops: seq<Op>, op: Op)
    ensures Ideal(ops + [op]) == Apply(Ideal(ops), op, true).0
  {
    assert (ops + [op])[..|ops|] == ops;
  }

  lemma CreateAgrees(m: Mem, ideal: Mem, inv: Invoice)
    requires Agrees(m, ideal) && inv.id !in m.invoices
    ensures Agrees(Create(m, inv, true).0, Create(ideal, inv, true).0)
  {
    hide KeyOf, IsIndex, Distinct;
    if KeyOf(inv) !in m.memos {
      IndexInsert(m.memos, m.invoices, inv);
    }
  }

  lemma IndexInsert(memos: map<string, string>, ledger: Ledger, inv: Invoice)
    requires IsIndex(memos, ledger) && Distinct(ledger) && inv.id !in ledger && KeyOf(inv) !in memos
    ensures IsIndex(memos[KeyOf(inv) := inv.id], ledger[inv.id := inv]) && Distinct(ledger[inv.id := inv])
  {
    hide KeyOf;
  }

  lemma MoveAgrees(m: Mem, ideal: Mem, id: string, updated: Invoice)
    requires Agrees(m, ideal) && IsPending(m.invoices, id)
    requires updated.id == id && KeyOf(updated) == KeyOf(m.invoices[id])
    ensures Agrees(Move(m, id, updated, true).0, Move(ideal, id, updated, true).0)
  {
    hide KeyOf;
  }

  /** An overwritten invoice leaves its key behind in the index. */
  lemma StaleKey(memos: map<string, string>, ledger: Ledger, inv: Invoice)
    requires IsIndex(memos, ledger) && inv.id in ledger && KeyOf(inv) !in memos
    ensures !IsIndex(memos[KeyOf(inv) := inv.id], ledger[inv.id := inv])
  {
    hide KeyOf;
    var memos', stale := memos[KeyOf(inv) := inv.id], KeyOf(ledger[inv.id]);
    assert stale in memos' && memos'[stale] == inv.id;
  }

  lemma CreateAgreesIff(m: Mem, ideal: Mem, inv: Invoice, ok: bool)
    requires Agrees(m, ideal)
    ensures Agrees(Create(m, inv, ok).0, if ok then Create(ideal, inv, true).0 else ideal)
      <==> inv.id !in m.invoices || KeyOf(inv) in m.memos
  {
    hide KeyOf, IsIndex, Distinct;
    if inv.id in m.invoices && KeyOf(inv) !in m.memos {
      StaleKey(m.memos, m.invoices, inv);
      assert !ok ==> inv.id !in Create(m, inv, ok).0.invoices;
    } else if KeyOf(inv) !in m.memos {
      CreateAgrees(m, ideal, inv);
      RollbackExact(m, inv);
    }
  }

  lemma ApplyAgrees(m: Mem, ideal: Mem, op: Op, ok: bool)
    requires Agrees(m, ideal)
    ensures Agrees(Apply(m, op, ok).0, if ok then Apply(ideal, op, true).0 else ideal) <==> SafeOp(m, op)
  {
    hide KeyOf, Agrees, Create, Move;
    match op
    case CreateOp(inv) => CreateAgreesIff(m, ideal, inv, ok);
    case _ =>
      PendingAlike(m, ideal, op.id);
      MoveRollback(m, op);
      if IsPending(m.invoices, op.id) {
        MovedKey(m.invoices[op.id], op);
        MoveAgrees(m, ideal, op.id, Moved(m.invoices[op.id], op));
      }
  }

  lemma MovedKey(inv: Invoice, op: Op)
    requires !op.CreateOp?
    ensures KeyOf(Moved(inv, op)) == KeyOf(inv) && Moved(inv, op).id == inv.id
  {
  }

  lemma PendingAlike(m: Mem, ideal: Mem, id: string)
    requires Agrees(m, ideal)
    ensures m.durable && ideal.invoices == m.invoices && (id in m.invoices ==> m.invoices[id].id == id)
  {
    hide KeyOf;
  }

  /** A restart that finds a write in flight on disk has the state of that write. */
  lemma RestartAgrees(m: Mem, ideal: Mem, op: Op, m': Mem)
    requires Agrees(m, ideal) && Loaded(m', OnDisk(m, op, true))
    ensures Agrees(m', Apply(ideal, op, true).0) <==> SafeOp(m, op)
  {
    hide KeyOf, IsIndex, Distinct, Move, Create;
    var written := Apply(m, op, true).0;
    ApplyAgrees(m, ideal, op, true);
    OnDiskIsWritten(m, op);
    if Agrees(m', Apply(ideal, op, true).0) {
      ApplyAlike(m, ideal, op);
      ApplyDistinct(m, op);
    } else if SafeOp(m, op) {
      IndexUnique(m'.memos, written.memos, m'.invoices);
    }
  }

  /** An operation does the same to two stores that hold the same. */
  lemma ApplyAlike(m: Mem, ideal: Mem, op: Op)
    requires m.invoices == ideal.invoices && m.memos == ideal.memos && !ideal.durable
    ensures var a, b := Apply(m, op, true).0, Apply(ideal, op, true).0;
      a.invoices == b.invoices && a.memos == b.memos && !b.durable && a.durable == m.durable
  {
    hide KeyOf;
  }

  lemma OnDiskIsWritten(m: Mem, op: Op)
    requires m.durable && ReadBack(m.disk) == m.invoices
    ensures ReadBack(OnDisk(m, op, true)) == Apply(m, op, true).0.invoices
    ensures Apply(m, op, true).0.disk == OnDisk(m, op, true)
  {
    hide KeyOf;
  }

  lemma ApplyDistinct(m: Mem, op: Op)
    requires Distinct(m.invoices) && IsIndex(m.memos, m.invoices)
    ensures Distinct(Apply(m, op, true).0.invoices)
  {
    hide KeyOf, Apply;
    AlwaysIndexed(m, op, true);
  }

  lemma StepAgrees(m: Mem, ideal: Mem, e: Event, m': Mem)
    requires Agrees(m, ideal) && Step(m, e, m')
    ensures Agrees(m', if Effective(e) == [] then ideal else Apply(ideal, Effective(e)[0], true).0) <==> Safe(m, e)
  {
    hide Apply, KeyOf, IsIndex, Distinct, SafeOp;
    match e
    case Run(op, diskOk) => ApplyAgrees(m, ideal, op, diskOk);
    case Restart(inFlight, written) =>
      if inFlight.Some? && written {
        RestartAgrees(m, ideal, inFlight.value, m');
      } else {
        IndexUnique(m'.memos, m.memos, m'.invoices);
      }
  }

  ghost predicate Recovers(states: seq<Mem>, events: seq<Event>) {
    forall i :: 0 <= i <= |events| && i < |states| ==> Agrees(states[i], Ideal(AllEffective(events[..i])))
  }

  ghost predicate AllSafe(states: seq<Mem>, events: seq<Event>) {
    forall i :: 0 <= i < |events| && i < |states| ==> Safe(states[i], events[i])
  }

  lemma RecoversMore(states: seq<Mem>, events: seq<Event>)
    requires events != [] && |states| == |events| + 1
    ensures var n := |events| - 1;
      Recovers(states, events) <==>
        Recovers(states[..n + 1], events[..n]) && Agrees(states[n + 1], Ideal(AllEffective(events)))
  {
    hide Agrees, Ideal, AllEffective;
    var n := |events| - 1;
    var before, past := states[..n + 1], events[..n];
    assert forall i :: 0 <= i <= n ==> past[..i] == events[..i] && before[i] == states[i];
    assert events[..n + 1] == events;
  }

  lemma SafeMore(states: seq<Mem>, events: seq<Event>)
    requires events != [] && |states| == |events| + 1
    ensures var n := |events| - 1;
      AllSafe(states, events) <==> AllSafe(states[..n + 1], events[..n]) && Safe(states[n], events[n])
  {
    hide Safe;
  }

  /** However writes fail and wherever the process dies, the store holds exactly the
      acknowledged operations, plus possibly the one in flight, both in memory and on
      disk, and its index is the live one: at every moment of a history, if and only
      if no insert in it overwrites an invoice. */
  lemma {:induction false} CrashRecovery(states: seq<Mem>, events: seq<Event>)
    requires History(states, events)
    ensures Recovers(states, events) <==> AllSafe(states, events)
  {
    hide Step, Agrees, Safe, Ideal, AllEffective, Effective, Recovers, AllSafe;
    if events == [] {
      StartRecovers(states, events);
    } else {
      var n := |events| - 1;
      var past := events[..n];
      CrashRecovery(states[..n + 1], past);
      RecoversMore(states, events);
      SafeMore(states, events);
      if Recovers(states[..n + 1], past) {
        LastAgrees(states[..n + 1], past);
        StepAgrees(states[n], Ideal(AllEffective(past)), events[n], states[n + 1]);
        EffectiveStep(events);
      }
    }
  }

  lemma StartRecovers(states: seq<Mem>, events: seq<Event>)
    requires events == [] && states == [New(true)]
    ensures Recovers(states, events) && AllSafe(states, events)
  {
    assert events[..0] == [];
    StartAgrees();
  }

  lemma LastAgrees(states: seq<Mem>, events: seq<Event>)
    requires Recovers(states, events) && |states| == |events| + 1
    ensures Agrees(states[|events|], Ideal(AllEffective(events)))
  {
    hide Agrees, Ideal, AllEffective;
    assert events[..|events|] == events;
  }

  lemma StartAgrees()
    ensures Agrees(New(true), Ideal(AllEffective([])))
  {
  }

  lemma EffectiveStep(events: seq<Event>)
    requires events != []
    ensures var ops, more := AllEffective(events[..|events| - 1]), Effective(events[|events| - 1]);
      Ideal(AllEffective(events)) == if more == [] then Ideal(ops) else Apply(Ideal(ops), more[0], true).0
  {
    hide Apply, Ideal;
    var ops, more := AllEffective(events[..|events| - 1]), Effective(events[|events| - 1]);
    if more == [] {
      assert AllEffective(events) == ops;
    } else {
      IdealSnoc(ops, more[0]);
      assert AllEffective(events) == ops + [more[0]];
    }
  }

  /** With a reused id and a failing disk memory forgets an invoice that a restart
      brings back. */
  lemma ReusedIdForgotten(a: Invoice, b: Invoice)
    requires a.id == b.id && KeyOf(a) != KeyOf(b)
    ensures var m := Create(Create(New(true), a, true).0, b, false).0;
      m.invoices == map[] && ReadBack(m.disk) == map[a.id := a]
  {
    var m := Create(New(true), a, true).0;
    assert m.invoices[b.id := b] - {b.id} == map[];
  }
}
