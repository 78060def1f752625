/** The invoice store of internal/store: the state of the Memory store and what
    each of its operations does to it. */
module Store {
  import opened GoText

  datatype Status = Pending | Paid | Expired

  /** Times are nanoseconds since the Unix epoch; this is Go's zero time.Time. */
  const ZERO_TIME: int := -62135596800_000_000_000

  datatype Invoice = Invoice(
    id: string, payTo: string, memo: string, amountNano: int, currency: string, status: Status,
    txHash: string, metadata: map<string, string>, createdAt: int, paidAt: int, expiresAt: int)

  type Ledger = map<string, Invoice>

  /** What must be unique: a memo per receiving address. */
  function MemoKey(payTo: string, memo: string): string {
    payTo + "\0" + memo
  }

  function KeyOf(inv: Invoice): string {
    MemoKey(inv.payTo, inv.memo)
  }

  /** The key determines both parts, for addresses without a NUL. */
  lemma MemoKeyInjective(payTo: string, memo: string, payTo': string, memo': string)
    requires '\0' !in payTo && '\0' !in payTo'
    ensures MemoKey(payTo, memo) == MemoKey(payTo', memo') <==> payTo == payTo' && memo == memo'
  {
    var k, k' := MemoKey(payTo, memo), MemoKey(payTo', memo');
    FirstNul(payTo, memo);
    FirstNul(payTo', memo');
    if k == k' {
      assert payTo == k[..|payTo|] && memo == k[|payTo| + 1..];
      assert payTo' == k'[..|payTo'|] && memo' == k'[|payTo'| + 1..];
    }
  }

  lemma FirstNul(payTo: string, memo: string)
    requires '\0' !in payTo
    ensures '\0' in MemoKey(payTo, memo) && IndexOf(MemoKey(payTo, memo), '\0') == |payTo|
  {
    var k := MemoKey(payTo, memo);
    assert k[|payTo|] == '\0';
  }

  // ---- The store and its operations ----

  /** Maps in memory and the snapshot file; a store without a directory has none. */
  datatype Mem = Mem(durable: bool, invoices: Ledger, memos: map<string, string>, disk: Option<Ledger>)

  datatype Outcome = Done | Refused | Failed

  function New(durable: bool): Mem {
    Mem(durable, map[], map[], None)
  }

  /** Writes the snapshot, or fails and leaves the file as it was. */
  function Persist(m: Mem, diskOk: bool): (Mem, bool) {
    if !m.durable then (m, true)
    else if diskOk then (m.(disk := Some(m.invoices)), true)
    else (m, false)
  }

  function Create(m: Mem, inv: Invoice, diskOk: bool): (Mem, Outcome) {
    var key := KeyOf(inv);
    if key in m.memos then (m, Refused)
    else
      var (m', ok) := Persist(m.(invoices := m.invoices[inv.id := inv], memos := m.memos[key := inv.id]), diskOk);
      if ok then (m', Done)
      else (m'.(invoices := m'.invoices - {inv.id}, memos := m'.memos - {key}), Failed)
  }

  /** A transition out of pending: refused unless pending, undone unless written. */
  function Move(m: Mem, id: string, updated: Invoice, diskOk: bool): (Mem, Outcome)
    requires IsPending(m.invoices, id)
  {
    var (m', ok) := Persist(m.(invoices := m.invoices[id := updated]), diskOk);
    if ok then (m', Done) else (m'.(invoices := m'.invoices[id := m.invoices[id]]), Failed)
  }

  predicate IsPending(ledger: Ledger, id: string) {
    id in ledger && ledger[id].status == Pending
  }

  function Settled(inv: Invoice, txHash: string, paidAt: int): Invoice {
    inv.(status := Paid, txHash := txHash, paidAt := paidAt)
  }

  function Lapsed(inv: Invoice): Invoice {
    inv.(status := Expired)
  }

  function Claim(m: Mem, id: string, txHash: string, paidAt: int, diskOk: bool): (Mem, Outcome) {
    if !IsPending(m.invoices, id) then (m, Refused)
    else Move(m, id, Settled(m.invoices[id], txHash, paidAt), diskOk)
  }

  function Expire(m: Mem, id: string, diskOk: bool): (Mem, Outcome) {
    if !IsPending(m.invoices, id) then (m, Refused)
    else Move(m, id, Lapsed(m.invoices[id]), diskOk)
  }

  function PendingOf(ledger: Ledger): set<string> {
    set id | id in ledger && ledger[id].status == Pending
  }

  function PendingFor(ledger: Ledger, payTo: string): set<string> {
    set id | id in ledger && ledger[id].status == Pending && ledger[id].payTo == payTo
  }

  // ---- The index ----

  /** Every invoice is found by its key. */
  ghost predicate Indexed(m: Mem) {
    forall id :: id in m.invoices ==> KeyOf(m.invoices[id]) in m.memos
  }

  /** No two invoices share a key, and each is filed under its own id. */
  ghost predicate Distinct(ledger: Ledger) {
    && (forall id :: id in ledger ==> ledger[id].id == id)
    && forall i, j :: i in ledger && j in ledger && KeyOf(ledger[i]) == KeyOf(ledger[j]) ==> i == j
  }

  /** The index holds the key of every invoice and nothing else. */
  ghost predicate IsIndex(memos: map<string, string>, ledger: Ledger) {
    && (forall id :: id in ledger ==> KeyOf(ledger[id]) in memos && memos[KeyOf(ledger[id])] == id)
    && forall k :: k in memos ==> memos[k] in ledger && KeyOf(ledger[memos[k]]) == k
  }

  /** An invoice list has at most one index, so the order it is built in is not
      seen. */
  lemma IndexUnique(memos: map<string, string>, memos': map<string, string>, ledger: Ledger)
    requires IsIndex(memos, ledger) && IsIndex(memos', ledger)
    ensures memos == memos'
  {
    assert forall k :: k in memos ==> k in memos' && memos[k] == memos'[k];
    assert forall k :: k in memos' ==> k in memos;
  }

  // ---- Operations as data ----

  datatype Op =
    | CreateOp(inv: Invoice)
    | ClaimOp(id: string, txHash: string, paidAt: int)
    | ExpireOp(id: string)

  function Apply(m: Mem, op: Op, diskOk: bool): (Mem, Outcome) {
    match op
    case CreateOp(inv) => Create(m, inv, diskOk)
    case ClaimOp(id, txHash, paidAt) => Claim(m, id, txHash, paidAt, diskOk)
    case ExpireOp(id) => Expire(m, id, diskOk)
  }

  lemma UpdatedKey(inv: Invoice, txHash: string, paidAt: int)
    ensures KeyOf(Settled(inv, txHash, paidAt)) == KeyOf(inv) == KeyOf(Lapsed(inv))
  {
  }

  lemma CreateIndexed(m: Mem, inv: Invoice, diskOk: bool)
    requires Indexed(m) && Distinct(m.invoices)
    ensures var m' := Create(m, inv, diskOk).0; Indexed(m') && Distinct(m'.invoices)
  {
    hide KeyOf;
  }

  lemma MoveIndexed(m: Mem, id: string, updated: Invoice, diskOk: bool)
    requires Indexed(m) && Distinct(m.invoices) && IsPending(m.invoices, id)
    requires updated.id == id && KeyOf(updated) == KeyOf(m.invoices[id])
    ensures var m' := Move(m, id, updated, diskOk).0; Indexed(m') && Distinct(m'.invoices)
  {
    hide KeyOf;
  }

  /** Uniqueness needs no fresh ids: whatever is inserted, every invoice is indexed
      and no two share a key. */
  lemma AlwaysIndexed(m: Mem, op: Op, diskOk: bool)
    requires Indexed(m) && Distinct(m.invoices)
    ensures var m' := Apply(m, op, diskOk).0; Indexed(m') && Distinct(m'.invoices)
  {
    hide KeyOf, Indexed, Create, Move;
    match op
    case CreateOp(inv) => CreateIndexed(m, inv, diskOk);
    case ClaimOp(id, txHash, paidAt) =>
      if IsPending(m.invoices, id) {
        UpdatedKey(m.invoices[id], txHash, paidAt);
        MoveIndexed(m, id, Settled(m.invoices[id], txHash, paidAt), diskOk);
      }
    case ExpireOp(id) =>
      if IsPending(m.invoices, id) {
        UpdatedKey(m.invoices[id], "", 0);
        MoveIndexed(m, id, Lapsed(m.invoices[id]), diskOk);
      }
  }

  function Moved(inv: Invoice, op: Op): Invoice {
    if op.ClaimOp? then Settled(inv, op.txHash, op.paidAt) else Lapsed(inv)
  }

  /** A failed insert puts the store back exactly when the id was fresh: a reused
      id is deleted together with the invoice that had it. */
  lemma RollbackExact(m: Mem, inv: Invoice)
    requires m.durable
    ensures Create(m, inv, false).0 == m <==> inv.id !in m.invoices || KeyOf(inv) in m.memos
  {
    if inv.id !in m.invoices && KeyOf(inv) !in m.memos {
      assert m.invoices[inv.id := inv] - {inv.id} == m.invoices;
      assert m.memos[KeyOf(inv) := inv.id] - {KeyOf(inv)} == m.memos;
    }
  }

  /** An insert with a fresh id is refused exactly when the memo is taken, fails exactly
      when its write does, and changes nothing unless it is done. */
  lemma InsertEffect(m: Mem, inv: Invoice, diskOk: bool)
    requires inv.id !in m.invoices
    ensures var (m', outcome) := Create(m, inv, diskOk);
      && (outcome.Refused? <==> KeyOf(inv) in m.memos)
      && (outcome.Failed? <==> KeyOf(inv) !in m.memos && m.durable && !diskOk)
      && (!outcome.Done? ==> m' == m)
      && (outcome.Done? ==> m'.invoices == m.invoices[inv.id := inv])
  {
    hide KeyOf;
    if m.durable {
      RollbackExact(m, inv);
    }
  }

  /** A failed claim or expiry always puts the store back. */
  lemma MoveRollback(m: Mem, op: Op)
    requires m.durable && !op.CreateOp?
    ensures Apply(m, op, false).0 == m
  {
    if op.ClaimOp? && IsPending(m.invoices, op.id) {
      var updated := Settled(m.invoices[op.id], op.txHash, op.paidAt);
      assert m.invoices[op.id := updated][op.id := m.invoices[op.id]] == m.invoices;
    } else if op.ExpireOp? && IsPending(m.invoices, op.id) {
      assert m.invoices[op.id := Lapsed(m.invoices[op.id])][op.id := m.invoices[op.id]] == m.invoices;
    }
  }
}
