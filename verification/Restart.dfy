/** Restarting the Memory store under the settlement protocol. */
module Restart {
  import opened Verifier
  import opened Store
  import opened Protocol
  import opened Guarantees
  import Recovery

  /** The store is on disk as it is in memory, and indexed as a load would index it. */
  ghost predicate Written(m: Mem) {
    Recovery.Agrees(m, m.(durable := false))
  }

  lemma OpWritten(m: Mem, op: Op, ok: bool)
    requires Written(m) && (op.CreateOp? ==> op.inv.id !in m.invoices)
    ensures Written(Apply(m, op, ok).0)
  {
    hide Apply, KeyOf, IsIndex, Distinct;
    var ideal := m.(durable := false);
    Recovery.ApplyAgrees(m, ideal, op, ok);
    assert Recovery.Agrees(Apply(m, op, ok).0, if ok then Apply(ideal, op, true).0 else ideal);
  }

  lemma StepWritten(cfg: Config, s: State, e: Event)
    requires Possible(s, e) && Written(s.store)
    ensures Written(Step(cfg, s, e).store)
  {
    hide Next, Apply, Written, Honest, Typed;
    if e.Go? {
      StoreAfter(cfg, s, e.t, e.input);
      var op := OpOf(s.threads[e.t].pc, e.input);
      if op.Some? {
        OpWritten(s.store, op.value, e.input.ok);
      }
    }
  }

  lemma StartWritten()
    ensures Written(Init(true).store)
  {
  }

  lemma {:induction false} RunWritten(cfg: Config, states: seq<State>, events: seq<Event>, i: nat)
    requires IsRun(cfg, states, events) && states[0] == Init(true) && i < |states|
    ensures Written(states[i].store)
  {
    hide Step, Possible, Follows, Written;
    if i == 0 {
      StartWritten();
    } else {
      RunWritten(cfg, states, events, i - 1);
      OneStep(cfg, states, events, i - 1);
      StepWritten(cfg, states[i - 1], events[i - 1]);
    }
  }

  /** At every moment of a run of a store with a directory, a restart loads exactly the
      store that was there: nothing that holds over runs is lost with the process that
      holds the store. */
  lemma RestartSame(cfg: Config, states: seq<State>, events: seq<Event>, i: nat, m: Mem)
    requires IsRun(cfg, states, events) && states[0] == Init(true) && i < |states|
    ensures Recovery.Loaded(m, states[i].store.disk) <==> m == states[i].store
  {
    hide IsRun, IsIndex, Distinct;
    RunWritten(cfg, states, events, i);
    if Recovery.Loaded(m, states[i].store.disk) {
      IndexUnique(m.memos, states[i].store.memos, m.invoices);
    }
  }
}
