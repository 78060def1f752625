/** Reachable states, under what the callers of the service keep to. */
module Reach {
  import opened GoText
  import opened Verifier
  import opened Protocol
  import opened Settlement
  import opened Guarantees
  import opened Caps

  /** The addresses that invoices are created for, and how many creators of a scope
      there are at a time, if that is limited. */
  datatype Callers = Callers(payTos: iset<string>, scope: Scope, most: Option<nat>)

  ghost predicate Obeys(e: Event, callers: Callers) {
    e.Spawn? && e.job.CreateInvoice? ==> e.job.payTo in callers.payTos
  }

  ghost predicate Within(s: State, callers: Callers) {
    callers.most.Some? ==> |Creators(s.threads, callers.scope)| <= callers.most.value
  }

  ghost predicate RunOf(cfg: Config, states: seq<State>, events: seq<Event>, callers: Callers) {
    && IsRun(cfg, states, events)
    && (forall k :: 0 <= k < |events| ==> Obeys(events[k], callers))
    && (forall k :: 0 <= k < |states| ==> Within(states[k], callers))
  }

  /** A state that some run of such callers reaches. */
  ghost predicate Reaches(cfg: Config, s: State, callers: Callers) {
    exists states, events ::
      RunOf(cfg, states, events, callers) && |states| == |events| + 1 && states[|events|] == s
  }

  lemma ReachesInv(cfg: Config, s: State, callers: Callers)
    requires Reaches(cfg, s, callers)
    ensures Inv(s)
  {
    hide IsRun, Inv, Obeys, Within;
    var states, events :|
      RunOf(cfg, states, events, callers) && |states| == |events| + 1 && states[|events|] == s;
    RunInv(cfg, states, events, |events|);
  }

  lemma StartReaches(cfg: Config, callers: Callers)
    ensures Reaches(cfg, Init(false), callers)
  {
    assert Creators(Init(false).threads, callers.scope) == {};
    assert RunOf(cfg, [Init(false)], [], callers);
  }

  lemma ReachesNext(cfg: Config, s: State, e: Event, callers: Callers)
    requires Reaches(cfg, s, callers) && Possible(s, e) && Obeys(e, callers) && Within(Step(cfg, s, e), callers)
    ensures Reaches(cfg, Step(cfg, s, e), callers)
  {
    hide IsRun, Next, Honest, Obeys, Within;
    var states, events :|
      RunOf(cfg, states, events, callers) && |states| == |events| + 1 && states[|events|] == s;
    RunExtends(cfg, states, events, e, Step(cfg, s, e));
    assert RunOf(cfg, states + [Step(cfg, s, e)], events + [e], callers);
  }

  lemma GoReaches(cfg: Config, s: State, t: nat, x: Input, callers: Callers)
    requires Reaches(cfg, s, callers) && Enabled(s, t, x) && Within(Next(cfg, s, t, x), callers)
    ensures Reaches(cfg, Next(cfg, s, t, x), callers)
  {
    hide Reaches, Next, Enabled, Within;
    assert Possible(s, Go(t, x));
    ReachesNext(cfg, s, Go(t, x), callers);
  }

  /** Callers with more addresses to choose from reach no less. */
  lemma ReachesMore(cfg: Config, s: State, fewer: Callers, more: Callers)
    requires Reaches(cfg, s, fewer) && fewer.payTos <= more.payTos && more == fewer.(payTos := more.payTos)
    ensures Reaches(cfg, s, more)
  {
    hide IsRun;
    var states, events :|
      RunOf(cfg, states, events, fewer) && |states| == |events| + 1 && states[|events|] == s;
    forall k | 0 <= k < |events| ensures Obeys(events[k], more) {
      assert Obeys(events[k], fewer);
    }
    forall k | 0 <= k < |states| ensures Within(states[k], more) {
      assert Within(states[k], fewer);
    }
    assert RunOf(cfg, states, events, more);
  }
}
