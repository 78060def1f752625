/** The Memory store of internal/store/memory.go as it runs: two maps updated in
    place and a snapshot file. The write lock is held for the whole of each method. */
module Memory {
  import opened GoText
  import opened Store
  import opened Recovery

  /** The snapshot file. A temporary file and a rename replace it at once. */
  class Disk {
    var file: Option<Ledger>

    constructor (file: Option<Ledger>)
      ensures this.file == file
    {
      this.file := file;
    }

    /** ok is what the file system does with this write. */
    method Replace(ledger: Ledger, ok: bool)
      modifies this
      ensures file == if ok then Some(ledger) else old(file)
    {
      if ok {
        file := Some(ledger);
      }
    }
  }

  class Memory {
    const durable: bool
    const disk: Disk
    var invoices: Ledger
    var memos: map<string, string>

    ghost function Contents(): Mem
      reads this, disk
    {
      Mem(durable, invoices, memos, disk.file)
    }

    /** Starts from the snapshot, if the store has a directory. */
    constructor (durable: bool, disk: Disk)
      ensures this.durable == durable && this.disk == disk
      ensures invoices == if durable then ReadBack(disk.file) else map[]
      ensures Distinct(invoices) ==> IsIndex(memos, invoices)
      ensures durable && Distinct(ReadBack(disk.file)) ==> Loaded(Contents(), disk.file)
    {
      this.durable, this.disk := durable, disk;
      invoices, memos := map[], map[];
      new;
      if durable {
        Load();
      }
    }

    /** Rebuilds the index from the snapshot, in whatever order the map yields. */
    method Load()
      requires invoices == map[] && memos == map[]
      modifies this
      ensures invoices == ReadBack(disk.file)
      ensures forall id :: id in invoices ==> KeyOf(invoices[id]) in memos
      ensures forall k :: k in memos ==> memos[k] in invoices && KeyOf(invoices[memos[k]]) == k
      ensures Distinct(invoices) ==> IsIndex(memos, invoices)
    {
      hide KeyOf;
      if disk.file.None? {
        return;
      }
      invoices := disk.file.value;
      memos := map[];
      var left := invoices.Keys;
      while left != {}
        invariant left <= invoices.Keys && invoices == disk.file.value
        invariant forall id :: id in invoices && id !in left ==> KeyOf(invoices[id]) in memos
        invariant forall k :: k in memos ==> memos[k] in invoices && KeyOf(invoices[memos[k]]) == k
        decreases |left|
      {
        var id :| id in left;
        memos := memos[KeyOf(invoices[id]) := id];
        left := left - {id};
      }
    }

    method PersistAll(diskOk: bool) returns (ok: bool)
      modifies disk
      ensures (Contents(), ok) == Persist(old(Contents()), diskOk)
    {
      if !durable {
        return true;
      }
      disk.Replace(invoices, diskOk);
      ok := diskOk;
    }

    method CreateInvoice(inv: Invoice, diskOk: bool) returns (outcome: Outcome)
      modifies this, disk
      ensures (Contents(), outcome) == Create(old(Contents()), inv, diskOk)
    {
      hide KeyOf;
      var key := KeyOf(inv);
      if key in memos {
        return Refused;
      }
      invoices := invoices[inv.id := inv];
      memos := memos[key := inv.id];
      var ok := PersistAll(diskOk);
      if !ok {
        invoices := invoices - {inv.id};
        memos := memos - {key};
        return Failed;
      }
      return Done;
    }

    method GetInvoice(id: string) returns (found: Option<Invoice>)
      ensures found == if id in invoices then Some(invoices[id]) else None
    {
      if id in invoices {
        return Some(invoices[id]);
      }
      return None;
    }

    method ClaimInvoiceForSettlement(id: string, txHash: string, paidAt: int, diskOk: bool) returns (outcome: Outcome)
      modifies this, disk
      ensures (Contents(), outcome) == Claim(old(Contents()), id, txHash, paidAt, diskOk)
    {
      if id !in invoices || invoices[id].status != Pending {
        return Refused;
      }
      var cur := invoices[id];
      var updated := cur.(status := Paid);
      updated := updated.(txHash := txHash);
      updated := updated.(paidAt := paidAt);
      invoices := invoices[id := updated];
      var ok := PersistAll(diskOk);
      if !ok {
        invoices := invoices[id := cur];
        return Failed;
      }
      return Done;
    }

    method ExpireInvoice(id: string, diskOk: bool) returns (outcome: Outcome)
      modifies this, disk
      ensures (Contents(), outcome) == Expire(old(Contents()), id, diskOk)
    {
      if id !in invoices || invoices[id].status != Pending {
        return Refused;
      }
      var cur := invoices[id];
      var updated := cur.(status := Expired);
      invoices := invoices[id := updated];
      var ok := PersistAll(diskOk);
      if !ok {
        invoices := invoices[id := cur];
        return Failed;
      }
      return Done;
    }

    /** Counts pending invoices, in total and for one address. */
    method PendingCounts(payTo: string) returns (total: nat, forAddr: nat)
      ensures total == |PendingOf(invoices)|
      ensures forAddr == |PendingFor(invoices, payTo)|
    {
      total, forAddr := 0, 0;
      var left := invoices.Keys;
      while left != {}
        invariant left <= invoices.Keys
        invariant total == |PendingOf(invoices - left)|
        invariant forAddr == |PendingFor(invoices - left, payTo)|
        decreases |left|
      {
        var id :| id in left;
        CountOne(invoices, left, id);
        CountOneFor(invoices, left, id, payTo);
        left := left - {id};
        if invoices[id].status != Pending {
          continue;
        }
        total := total + 1;
        if invoices[id].payTo == payTo {
          forAddr := forAddr + 1;
        }
      }
      assert invoices - {} == invoices;
    }
  }

  lemma CountOne(ledger: Ledger, left: set<string>, id: string)
    requires id in left && left <= ledger.Keys
    ensures |PendingOf(ledger - (left - {id}))|
      == |PendingOf(ledger - left)| + if ledger[id].status == Pending then 1 else 0
  {
    Visit(ledger, left, id);
    var before, after := PendingOf(ledger - left), PendingOf(ledger - (left - {id}));
    assert id !in before;
    assert after == if ledger[id].status == Pending then before + {id} else before;
  }

  lemma CountOneFor(ledger: Ledger, left: set<string>, id: string, payTo: string)
    requires id in left && left <= ledger.Keys
    ensures |PendingFor(ledger - (left - {id}), payTo)|
      == |PendingFor(ledger - left, payTo)| + if ledger[id].status == Pending && ledger[id].payTo == payTo then 1 else 0
  {
    Visit(ledger, left, id);
    var before, after := PendingFor(ledger - left, payTo), PendingFor(ledger - (left - {id}), payTo);
    assert id !in before;
    assert after == if ledger[id].status == Pending && ledger[id].payTo == payTo then before + {id} else before;
  }

  lemma Visit(ledger: Ledger, left: set<string>, id: string)
    requires id in left && left <= ledger.Keys
    ensures ledger - (left - {id}) == (ledger - left)[id := ledger[id]]
  {
  }
}
