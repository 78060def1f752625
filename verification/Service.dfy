/** The service of internal/service/service.go as it runs, one call at a time. */
module Service {
  import opened Store
  import opened Verifier
  import opened Protocol
  import opened Outcomes
  import opened Sums
  import opened TonAddr
  import Memory
  import Locks

  /** The webhook sink: a notification is an event. */
  class Webhook {
    var fired: seq<Invoice>

    constructor ()
      ensures fired == []
    {
      fired := [];
    }

    method Fire(inv: Invoice)
      modifies this`fired
      ensures fired == old(fired) + [inv]
    {
      fired := fired + [inv];
    }
  }

  class Service {
    const st: Memory.Memory
    const locks: Locks.KeyedLocks
    const webhook: Webhook
    /** Without a webhook configured, settling notifies nobody. */
    const hooked: bool
    const defaultPayTo: string
    const testnet: bool
    const limits: Config

    constructor (st: Memory.Memory, locks: Locks.KeyedLocks, webhook: Webhook, hooked: bool,
                 defaultPayTo: string, testnet: bool, limits: Config)
      ensures this.st == st && this.locks == locks && this.webhook == webhook && this.hooked == hooked
      ensures Config() == Setup(limits, testnet, defaultPayTo)
    {
      this.st, this.locks, this.webhook, this.hooked := st, locks, webhook, hooked;
      this.defaultPayTo, this.testnet, this.limits := defaultPayTo, testnet, limits;
    }

    function Config(): Setup {
      Setup(limits, testnet, defaultPayTo)
    }

    /** Marks the invoice paid by the store's claim and notifies if this call won. */
    method Settle(inv: Invoice, txHash: string, env: Env) returns (reply: Reply)
      modifies st, st.disk, webhook`fired
      ensures var r := Outcomes.Settle(old(st.Contents()), inv, txHash, hooked, env);
        st.Contents() == r.store && webhook.fired == old(webhook.fired) + r.sent && reply == r.reply
    {
      hide Claim;
      var now := env.now;
      var outcome := st.ClaimInvoiceForSettlement(inv.id, txHash, now, env.diskOk);
      if outcome.Failed? {
        return StoreError(inv);
      }
      if outcome.Refused? {
        var cur := st.GetInvoice(inv.id);
        if cur.Some? {
          return Replied(cur.value);
        }
        return Replied(inv);
      }
      var paid := inv.(status := Paid);
      paid := paid.(txHash := txHash);
      paid := paid.(paidAt := now);
      if hooked {
        webhook.Fire(paid);
      }
      return Replied(paid);
    }

    /** Under the lock: re-reads the invoice, and settles it if it is still pending. */
    method SettleIfPending(id: string, txHash: string, env: Env) returns (reply: Reply)
      modifies st, st.disk, webhook`fired
      ensures var r := Reread(old(st.Contents()), id, txHash, hooked, env);
        st.Contents() == r.store && webhook.fired == old(webhook.fired) + r.sent && reply == r.reply
    {
      hide Outcomes.Settle;
      var found := st.GetInvoice(id);
      if found.None? {
        return NotFound;
      }
      if found.value.status != Pending {
        return Replied(found.value);
      }
      reply := Settle(found.value, txHash, env);
    }

    /** Holds the lock of the invoice while settling it, and lets go on every way out. */
    method SettleLocked(id: string, inv: Invoice, txHash: string, env: Env) returns (reply: Reply)
      requires locks.Valid() && inv.id !in locks.Held()
      modifies st, st.disk, webhook`fired, locks, locks.Repr
      ensures locks.Valid() && locks.Held() == old(locks.Held()) && fresh(locks.Repr - old(locks.Repr))
      ensures var r := Reread(old(st.Contents()), id, txHash, hooked, env);
        st.Contents() == r.store && webhook.fired == old(webhook.fired) + r.sent && reply == r.reply
    {
      hide Reread;
      ghost var was := st.Contents();
      var l := locks.Lock(inv.id);
      assert st.Contents() == was;
      reply := SettleIfPending(id, txHash, env);
      locks.Unlock(inv.id, l);
    }

    method ExpireOverdue(inv: Invoice, env: Env) returns (reply: Reply)
      modifies st, st.disk
      ensures var r := ExpireNow(old(st.Contents()), inv, env);
        st.Contents() == r.store && r.sent == [] && reply == r.reply
    {
      hide Expire;
      var outcome := st.ExpireInvoice(inv.id, env.diskOk);
      if outcome.Failed? {
        return StoreError(inv);
      }
      if outcome.Refused? {
        var cur := st.GetInvoice(inv.id);
        if cur.Some? {
          return Replied(cur.value);
        }
        return Replied(inv);
      }
      return Replied(inv.(status := Expired));
    }

    /** One check: every way out leaves the locks held that were held before. */
    method CheckStatus(id: string, env: Env) returns (reply: Reply)
      requires locks.Valid() && (id in st.invoices ==> st.invoices[id].id !in locks.Held())
      modifies st, st.disk, webhook`fired, locks, locks.Repr
      ensures locks.Valid() && locks.Held() == old(locks.Held()) && fresh(locks.Repr - old(locks.Repr))
      ensures var r := Check(old(st.Contents()), id, hooked, env);
        st.Contents() == r.store && webhook.fired == old(webhook.fired) + r.sent && reply == r.reply
    {
      hide Outcomes.Settle, ExpireNow, Judge;
      var found := st.GetInvoice(id);
      if found.None? {
        return NotFound;
      }
      var inv := found.value;
      if inv.status != Pending {
        return Replied(inv);
      }
      var verdict := Verify(inv, env.response);
      if verdict.Credited? {
        reply := SettleLocked(id, inv, verdict.txHash, env);
        return;
      }
      if inv.expiresAt != ZERO_TIME && env.now > inv.expiresAt {
        reply := ExpireOverdue(inv, env);
        return;
      }
      return Replied(inv);
    }

    /** Guards, caps, clamp and the retry loop over freshly drawn ids and memos. */
    method CreateInvoice(job: Job, now: int, draws: seq<Draw>) returns (created: Created)
      requires job.CreateInvoice? && |draws| == 5
      modifies st, st.disk
      ensures (st.Contents(), created) == CreateNew(old(st.Contents()), Config(), job, now, draws)
    {
      hide NormalizeOnNetwork, Insert, MetadataFits;
      if job.amountNano <= 0 {
        return Rejected(BadAmount);
      }
      var addr := defaultPayTo;
      if job.payTo != "" {
        var norm := NormalizeOnNetwork(job.payTo, testnet);
        if norm.None? {
          return Rejected(BadAddress);
        }
        addr := norm.value;
      }
      if addr == "" {
        return Rejected(NoAddress);
      }
      var small := ValidateMetadata(job.metadata);
      if !small {
        return Rejected(BadMetadata);
      }
      if limits.maxPending > 0 || limits.maxPendingPerAddr > 0 {
        var total, forAddr := st.PendingCounts(addr);
        if limits.maxPending > 0 && total >= limits.maxPending {
          return Rejected(TooManyTotal);
        }
        if limits.maxPendingPerAddr > 0 && forAddr >= limits.maxPendingPerAddr {
          return Rejected(TooManyForAddress);
        }
      }
      var ttl := job.ttl;
      if ttl <= 0 {
        ttl := limits.defaultTTL;
      }
      if ttl > limits.maxTTL {
        ttl := limits.maxTTL;
      }
      var inv := Invoice("", addr, "", job.amountNano, "TON", Pending, "", job.metadata, now, ZERO_TIME, now + ttl);
      assert inv == Draft(limits, job.(payTo := addr), now);
      created := Allocate(inv, draws);
    }

    /** Draws ids and memos until the store takes one. */
    method Allocate(draft: Invoice, draws: seq<Draw>) returns (created: Created)
      requires |draws| == 5
      modifies st, st.disk
      ensures (st.Contents(), created) == Insert(old(st.Contents()), draft, draws)
    {
      hide Create;
      var inv := draft;
      ghost var was := st.Contents();
      assert draws[0..] == draws;
      for attempt := 0 to ATTEMPTS
        invariant inv == draft.(id := inv.id, memo := inv.memo)
        invariant st.Contents() == was && Insert(was, draft, draws) == Insert(was, draft, draws[attempt..])
      {
        inv := inv.(id := draws[attempt].id);
        inv := inv.(memo := draws[attempt].memo);
        assert draws[attempt..][1..] == draws[attempt + 1..];
        RefusedUnchanged(was, inv, draws[attempt].diskOk);
        var outcome := st.CreateInvoice(inv, draws[attempt].diskOk);
        if outcome.Done? {
          return Created.Created(inv);
        }
        if outcome.Refused? {
          continue;
        }
        return Rejected(WriteFailed);
      }
      return Rejected(MemosTaken);
    }
  }

  /** Adds up keys and values in whatever order the map yields them. */
  method ValidateMetadata(metadata: map<string, string>) returns (ok: bool)
    ensures ok == MetadataFits(metadata)
  {
    if |metadata| > MAX_METADATA_KEYS {
      return false;
    }
    var total := 0;
    var left := metadata.Keys;
    ghost var sizes := EntryBytes(metadata);
    assert sizes - (metadata.Keys - left) == sizes;
    while left != {}
      invariant left <= metadata.Keys
      invariant total + Total(sizes - (metadata.Keys - left)) == Total(sizes)
      decreases |left|
    {
      var k :| k in left;
      TotalRemove(sizes - (metadata.Keys - left), k);
      assert sizes - (metadata.Keys - left) - {k} == sizes - (metadata.Keys - (left - {k}));
      total := total + Bytes(k) + Bytes(metadata[k]);
      left := left - {k};
    }
    assert sizes - metadata.Keys == map[];
    return total <= MAX_METADATA_BYTES;
  }

  lemma RefusedUnchanged(m: Mem, inv: Invoice, diskOk: bool)
    ensures Create(m, inv, diskOk).1.Refused? ==> Create(m, inv, diskOk).0 == m
  {
  }
}
