/** The token-bucket limiter of internal/httpx/middleware.go. Tokens and seconds
    are reals; times are seconds since the Unix epoch. */
module TokenBucket {

  /** Go's zero time.Time. */
  const ZERO_TIME: real := -62135596800.0

  datatype Tokens = Tokens(tokens: real, last: real)

  datatype Limits = Limits(rate: real, burst: real)

  datatype Limiter = Limiter(buckets: map<string, Tokens>, lastSweep: real)

  datatype Call = Call(key: string, now: real)

  function Init(): Limiter {
    Limiter(map[], ZERO_TIME)
  }

  /** Tokens earned in d seconds. */
  function Gain(d: real, c: Limits): real {
    d * c.rate
  }

  function Refilled(b: Tokens, now: real, c: Limits): real {
    b.tokens + Gain(now - b.last, c)
  }

  function Min(a: real, b: real): real {
    if a > b then b else a
  }

  /** Drops the buckets that have refilled, at most once a minute. */
  function Sweep(l: Limiter, now: real, c: Limits): Limiter {
    if now - l.lastSweep < 60.0 then l
    else Limiter(map k | k in l.buckets && Refilled(l.buckets[k], now, c) < c.burst :: l.buckets[k], now)
  }

  /** The body of allow after the sweep. */
  function Take(l: Limiter, key: string, now: real, c: Limits): (Limiter, bool) {
    if key !in l.buckets then
      (l.(buckets := l.buckets[key := Tokens(c.burst - 1.0, now)]), true)
    else
      var t := Min(Refilled(l.buckets[key], now, c), c.burst);
      if t < 1.0 then (l.(buckets := l.buckets[key := Tokens(t, now)]), false)
      else (l.(buckets := l.buckets[key := Tokens(t - 1.0, now)]), true)
  }

  function Allow(l: Limiter, key: string, now: real, c: Limits): (Limiter, bool) {
    Take(Sweep(l, now, c), key, now, c)
  }

  /** Limiter and answers after a run of calls, with or without eviction. */
  function After(calls: seq<Call>, evict: bool, c: Limits): (r: (Limiter, seq<bool>))
    ensures |r.1| == |calls|
  {
    if calls == [] then (Init(), [])
    else
      var n := |calls| - 1;
      var before := After(calls[..n], evict, c);
      var step := if evict then Allow(before.0, calls[n].key, calls[n].now, c)
                  else Take(before.0, calls[n].key, calls[n].now, c);
      (step.0, before.1 + [step.1])
  }

  function Answers(calls: seq<Call>, evict: bool, c: Limits): (r: seq<bool>)
    ensures |r| == |calls|
  {
    After(calls, evict, c).1
  }

  /** The clock never runs backward. */
  predicate Monotone(calls: seq<Call>) {
    && (forall i :: 0 <= i < |calls| ==> calls[i].now >= 0.0)
    && forall i, j :: 0 <= i < j < |calls| ==> calls[i].now <= calls[j].now
  }

  /** The time of the last call. */
  function Last(calls: seq<Call>): real {
    if calls == [] then 0.0 else calls[|calls| - 1].now
  }

  // ---- The level of a key: what a call would find ----

  function Level(l: Limiter, key: string, now: real, c: Limits): real {
    if key in l.buckets then Min(Refilled(l.buckets[key], now, c), c.burst) else c.burst
  }

  /** Buckets are never over-full and were last used in the past. */
  ghost predicate Sound(l: Limiter, now: real, c: Limits) {
    forall k :: k in l.buckets ==> 0.0 <= l.buckets[k].tokens <= c.burst && l.buckets[k].last <= now
  }

  ghost predicate Proper(c: Limits) {
    c.rate > 0.0 && c.burst >= 1.0
  }

  /** Waiting refills every level, up to the burst. */
  lemma Wait(l: Limiter, key: string, now: real, later: real, c: Limits)
    requires Proper(c) && Sound(l, now, c) && now <= later
    ensures 0.0 <= Level(l, key, now, c) <= c.burst
    ensures Level(l, key, later, c) == Min(Level(l, key, now, c) + Gain(later - now, c), c.burst)
  {
    hide Gain;
    GainGrows(later - now, c);
    if key in l.buckets {
      var b := l.buckets[key];
      GainGrows(now - b.last, c);
      RefilledLater(b, now, later, c);
    }
  }

  lemma RefilledLater(b: Tokens, now: real, later: real, c: Limits)
    ensures Refilled(b, later, c) == Refilled(b, now, c) + Gain(later - now, c)
  {
    hide Gain;
    GainSum(now - b.last, later - now, c);
    assert (now - b.last) + (later - now) == later - b.last;
  }

  lemma JustUsed(t: real, now: real, c: Limits)
    ensures Refilled(Tokens(t, now), now, c) == t
  {
    hide Gain;
    GainZero(c);
    assert now - now == 0.0;
  }

  lemma RateTimes(d: real, c: Limits)
    ensures Gain(d, c) == c.rate * d
  {
  }

  lemma GainSum(x: real, y: real, c: Limits)
    ensures Gain(x + y, c) == Gain(x, c) + Gain(y, c)
  {
  }

  lemma GainGrows(d: real, c: Limits)
    requires d >= 0.0 && c.rate > 0.0
    ensures Gain(d, c) >= 0.0 && (d > 0.0 ==> Gain(d, c) > 0.0)
  {
  }

  lemma GainZero(c: Limits)
    ensures Gain(0.0, c) == 0.0
  {
  }

  /** Eviction does not change any level. */
  lemma SweepKeepsLevels(l: Limiter, now: real, c: Limits)
    requires Proper(c) && Sound(l, now, c)
    ensures Sound(Sweep(l, now, c), now, c)
    ensures forall k :: Level(Sweep(l, now, c), k, now, c) == Level(l, k, now, c)
  {
    hide Gain;
  }

  /** At most once a minute the buckets that are full, and no others, are dropped. */
  lemma SweepMeans(l: Limiter, now: real, c: Limits)
    requires Proper(c) && Sound(l, now, c)
    ensures var l' := Sweep(l, now, c);
      if now < l.lastSweep + 60.0 then l' == l
      else
        && l'.lastSweep == now
        && forall k :: (k in l'.buckets <==> k in l.buckets && Level(l, k, now, c) < c.burst)
             && (k in l'.buckets ==> l'.buckets[k] == l.buckets[k])
  {
    hide Gain;
  }

  /** A call is allowed exactly when a token is there, and takes it. */
  lemma TakeLevels(l: Limiter, key: string, now: real, c: Limits)
    requires Proper(c) && Sound(l, now, c)
    ensures var (l', ok) := Take(l, key, now, c);
      && Sound(l', now, c)
      && (ok <==> Level(l, key, now, c) >= 1.0)
      && (forall k :: Level(l', k, now, c) == Level(l, k, now, c) - if k == key && ok then 1.0 else 0.0)
  {
    hide Gain;
    if key in l.buckets {
      GainGrows(now - l.buckets[key].last, c);
    }
    var (l', ok) := Take(l, key, now, c);
    JustUsed(l'.buckets[key].tokens, now, c);
  }

  lemma AllowLevels(l: Limiter, key: string, now: real, c: Limits)
    requires Proper(c) && Sound(l, now, c)
    ensures var (l', ok) := Allow(l, key, now, c);
      && Sound(l', now, c)
      && (ok <==> Level(l, key, now, c) >= 1.0)
      && (forall k :: Level(l', k, now, c) == Level(l, k, now, c) - if k == key && ok then 1.0 else 0.0)
  {
    hide Gain;
    SweepKeepsLevels(l, now, c);
    TakeLevels(Sweep(l, now, c), key, now, c);
  }

  lemma SoundLater(l: Limiter, now: real, later: real, c: Limits)
    requires Sound(l, now, c) && now <= later
    ensures Sound(l, later, c)
  {
  }

  lemma MonotonePrefix(calls: seq<Call>)
    requires Monotone(calls) && calls != []
    ensures Monotone(calls[..|calls| - 1]) && Last(calls[..|calls| - 1]) <= Last(calls)
  {
  }

  lemma {:induction false} RunSound(calls: seq<Call>, evict: bool, c: Limits)
    requires Proper(c) && Monotone(calls)
    ensures Sound(After(calls, evict, c).0, Last(calls), c)
  {
    hide Gain;
    if calls != [] {
      var n := |calls| - 1;
      var l := After(calls[..n], evict, c).0;
      MonotonePrefix(calls);
      RunSound(calls[..n], evict, c);
      SoundLater(l, Last(calls[..n]), calls[n].now, c);
      if evict {
        AllowLevels(l, calls[n].key, calls[n].now, c);
      } else {
        TakeLevels(l, calls[n].key, calls[n].now, c);
      }
    }
  }

  /** The level a key has after a run, seen at a later time. */
  function RunLevel(calls: seq<Call>, evict: bool, key: string, now: real, c: Limits): real {
    Level(After(calls, evict, c).0, key, now, c)
  }

  /** One call of a run: its answer and every level after it. */
  lemma RunStep(calls: seq<Call>, evict: bool, c: Limits)
    requires Proper(c) && Monotone(calls) && calls != []
    ensures var n := |calls| - 1;
      var x := calls[n];
      && (Answers(calls, evict, c)[n] <==> RunLevel(calls[..n], evict, x.key, x.now, c) >= 1.0)
      && Answers(calls, evict, c)[..n] == Answers(calls[..n], evict, c)
      && forall k :: RunLevel(calls, evict, k, x.now, c)
           == RunLevel(calls[..n], evict, k, x.now, c) - if k == x.key && Answers(calls, evict, c)[n] then 1.0 else 0.0
  {
    hide Gain;
    var n := |calls| - 1;
    var l := After(calls[..n], evict, c).0;
    MonotonePrefix(calls);
    RunSound(calls[..n], evict, c);
    SoundLater(l, Last(calls[..n]), calls[n].now, c);
    if evict {
      AllowLevels(l, calls[n].key, calls[n].now, c);
    } else {
      TakeLevels(l, calls[n].key, calls[n].now, c);
    }
  }

  // ---- Eviction is unobservable ----

  lemma {:induction false} LevelsAgree(calls: seq<Call>, c: Limits, key: string, now: real)
    requires Proper(c) && Monotone(calls) && Last(calls) <= now
    ensures RunLevel(calls, true, key, now, c) == RunLevel(calls, false, key, now, c)
    ensures Answers(calls, true, c) == Answers(calls, false, c)
  {
    hide Gain, Allow, Take, Level;
    RunWait(calls, true, key, Last(calls), now, c);
    RunWait(calls, false, key, Last(calls), now, c);
    if calls != [] {
      var n := |calls| - 1;
      MonotonePrefix(calls);
      LevelsAgree(calls[..n], c, key, calls[n].now);
      LevelsAgree(calls[..n], c, calls[n].key, calls[n].now);
      RunStep(calls, true, c);
      RunStep(calls, false, c);
    }
  }

  /** With room for at least one request, eviction never changes an answer; with
      less it does, because a fresh bucket always admits once. */
  lemma EvictionUnobservable(c: Limits)
    requires c.rate > 0.0
    ensures (forall calls :: Monotone(calls) ==> Answers(calls, true, c) == Answers(calls, false, c)) <==> c.burst >= 1.0
  {
    if c.burst >= 1.0 {
      forall calls | Monotone(calls) ensures Answers(calls, true, c) == Answers(calls, false, c) {
        LevelsAgree(calls, c, "", Last(calls));
      }
    } else {
      EvictionShows(c);
    }
  }

  lemma EvictionShows(c: Limits)
    requires c.rate > 0.0 && c.burst < 1.0
    ensures exists calls :: Monotone(calls) && Answers(calls, true, c) != Answers(calls, false, c)
  {
    hide Gain;
    var later := 60.0 + 1.0 / c.rate;
    var calls := [Call("", 0.0), Call("", later)];
    assert calls[..1] == [Call("", 0.0)] && calls[..1][..0] == [];
    GainOfToken(later, c);
    var first := Tokens(c.burst - 1.0, 0.0);
    assert Refilled(first, later, c) >= c.burst;
    assert After(calls[..1], true, c).0 == Limiter(map["" := first], 0.0);
    assert After(calls[..1], false, c).0.buckets == map["" := first];
    assert Answers(calls, true, c)[1];
    assert !Answers(calls, false, c)[1];
    assert Monotone(calls);
  }

  lemma GainOfToken(later: real, c: Limits)
    requires c.rate > 0.0 && later == 60.0 + 1.0 / c.rate
    ensures later >= 60.0 && Gain(later - 0.0, c) >= 1.0
  {
    var d := 1.0 / c.rate;
    assert d * c.rate == 1.0;
    GainSum(60.0, d, c);
    GainGrows(60.0, c);
  }

  // ---- Keys do not interfere ----

  function Only(calls: seq<Call>, key: string): seq<Call> {
    if calls == [] then []
    else
      var n := |calls| - 1;
      Only(calls[..n], key) + if calls[n].key == key then [calls[n]] else []
  }

  /** The answers given to one key. */
  function OnlyAnswers(calls: seq<Call>, answers: seq<bool>, key: string): seq<bool>
    requires |calls| == |answers|
  {
    if calls == [] then []
    else
      var n := |calls| - 1;
      OnlyAnswers(calls[..n], answers[..n], key) + if calls[n].key == key then [answers[n]] else []
  }

  /** A monotone run none of whose calls is later than now. */
  ghost predicate MonotoneUntil(calls: seq<Call>, now: real) {
    Monotone(calls) && forall i :: 0 <= i < |calls| ==> calls[i].now <= now
  }

  lemma UntilLast(calls: seq<Call>, now: real)
    requires MonotoneUntil(calls, now) && now >= 0.0
    ensures Monotone(calls) && Last(calls) <= now
  {
  }

  lemma MonotoneAppend(calls: seq<Call>, x: Call)
    requires MonotoneUntil(calls, x.now) && x.now >= 0.0
    ensures MonotoneUntil(calls + [x], x.now)
  {
  }

  lemma {:induction false} OnlyMonotone(calls: seq<Call>, key: string)
    requires Monotone(calls)
    ensures MonotoneUntil(Only(calls, key), Last(calls))
    ensures Last(calls) >= 0.0
  {
    if calls != [] {
      var n := |calls| - 1;
      var x, before := calls[n], Only(calls[..n], key);
      MonotonePrefix(calls);
      OnlyMonotone(calls[..n], key);
      assert MonotoneUntil(before, x.now);
      MonotoneAppend(before, x);
      assert Only(calls, key) == if x.key == key then before + [x] else before;
    }
  }

  /** The level a key has in a run is the one it would have alone, and so are its
      answers. */
  lemma {:induction false} KeysIndependent(calls: seq<Call>, key: string, evict: bool, now: real, c: Limits)
    requires Proper(c) && Monotone(calls) && Last(calls) <= now
    ensures RunLevel(calls, evict, key, now, c) == RunLevel(Only(calls, key), evict, key, now, c)
    ensures OnlyAnswers(calls, Answers(calls, evict, c), key) == Answers(Only(calls, key), evict, c)
  {
    hide Gain, Level, After, Monotone;
    var mine := Only(calls, key);
    OnlyMonotone(calls, key);
    UntilLast(mine, Last(calls));
    if calls == [] {
    } else {
      var n := |calls| - 1;
      var x, before := calls[n], Only(calls[..n], key);
      MonotonePrefix(calls);
      KeysIndependent(calls[..n], key, evict, x.now, c);
      RunStep(calls, evict, c);
      if x.key == key {
        assert mine[..|before|] == before && mine[|before|] == x;
        RunStep(mine, evict, c);
        assert Answers(mine, evict, c) == Answers(before, evict, c) + [Answers(mine, evict, c)[|before|]];
      } else {
        assert mine == before;
      }
      RunWait(calls, evict, key, x.now, now, c);
      RunWait(mine, evict, key, x.now, now, c);
    }
  }

  /** Between calls a level only refills. */
  lemma RunWait(calls: seq<Call>, evict: bool, key: string, now: real, later: real, c: Limits)
    requires Proper(c) && Monotone(calls) && Last(calls) <= now <= later
    ensures 0.0 <= RunLevel(calls, evict, key, now, c) <= c.burst
    ensures RunLevel(calls, evict, key, later, c) == Min(RunLevel(calls, evict, key, now, c) + Gain(later - now, c), c.burst)
  {
    hide Gain;
    RunSound(calls, evict, c);
    SoundLater(After(calls, evict, c).0, Last(calls), now, c);
    Wait(After(calls, evict, c).0, key, now, later, c);
  }

  // ---- Exactly the window bound ----

  /** Requests of a key admitted in a window of time. */
  function Admitted(calls: seq<Call>, answers: seq<bool>, key: string, from: real, to: real): nat
    requires |calls| == |answers|
  {
    if calls == [] then 0
    else
      var n := |calls| - 1;
      var x := calls[n];
      Admitted(calls[..n], answers[..n], key, from, to) + if x.key == key && answers[n] && from <= x.now <= to then 1 else 0
  }

  /** What the bound leaves for a window that starts at a given time and ends now. */
  function Room(calls: seq<Call>, answers: seq<bool>, key: string, from: real, now: real, c: Limits): real
    requires |calls| == |answers|
  {
    c.burst + Gain(now - from, c) - Admitted(calls, answers, key, from, now) as real
  }

  lemma {:induction false} NoneLater(calls: seq<Call>, answers: seq<bool>, key: string, from: real, to: real)
    requires |calls| == |answers| && Monotone(calls) && Last(calls) < from
    ensures Admitted(calls, answers, key, from, to) == 0
  {
    if calls != [] {
      MonotonePrefix(calls);
      NoneLater(calls[..|calls| - 1], answers[..|calls| - 1], key, from, to);
    }
  }

  lemma {:induction false} WindowEnd(calls: seq<Call>, answers: seq<bool>, key: string, from: real, now: real, later: real)
    requires |calls| == |answers| && Monotone(calls) && Last(calls) <= now <= later
    ensures Admitted(calls, answers, key, from, now) == Admitted(calls, answers, key, from, later)
  {
    if calls != [] {
      MonotonePrefix(calls);
      WindowEnd(calls[..|calls| - 1], answers[..|calls| - 1], key, from, now, later);
    }
  }

  /** The level of a key is the least room over all windows ending now: it bounds
      every window and some window meets it. */
  ghost predicate LevelIsLeastRoom(calls: seq<Call>, evict: bool, key: string, now: real, c: Limits) {
    var answers, level := Answers(calls, evict, c), RunLevel(calls, evict, key, now, c);
    && (forall from :: from <= now ==> level <= Room(calls, answers, key, from, now, c))
    && exists from :: from <= now && level == Room(calls, answers, key, from, now, c)
  }

  lemma WaitRoom(calls: seq<Call>, evict: bool, key: string, now: real, later: real, c: Limits)
    requires Proper(c) && Monotone(calls) && Last(calls) <= now <= later
    requires LevelIsLeastRoom(calls, evict, key, now, c)
    ensures LevelIsLeastRoom(calls, evict, key, later, c)
  {
    hide Gain, Level, Admitted, After;
    var answers := Answers(calls, evict, c);
    var level, level' := RunLevel(calls, evict, key, now, c), RunLevel(calls, evict, key, later, c);
    RunWait(calls, evict, key, now, later, c);
    forall from | from <= later ensures level' <= Room(calls, answers, key, from, later, c) {
      if from <= now {
        WindowEnd(calls, answers, key, from, now, later);
        GainSum(now - from, later - now, c);
        assert (now - from) + (later - now) == later - from;
        assert level <= Room(calls, answers, key, from, now, c);
      } else {
        NoneLater(calls, answers, key, from, later);
        GainGrows(later - from, c);
      }
    }
    var from :| from <= now && level == Room(calls, answers, key, from, now, c);
    WindowEnd(calls, answers, key, from, now, later);
    GainSum(now - from, later - now, c);
    assert (now - from) + (later - now) == later - from;
    if level' == level + Gain(later - now, c) {
      assert level' == Room(calls, answers, key, from, later, c);
    } else {
      GainGrows(later - now, c);
      assert now < later;
      NoneLater(calls, answers, key, later, later);
      GainZero(c);
      assert later - later == 0.0;
      assert level' == Room(calls, answers, key, later, later, c);
    }
  }

  lemma {:induction false} LeastRoom(calls: seq<Call>, evict: bool, key: string, now: real, c: Limits)
    requires Proper(c) && Monotone(calls) && Last(calls) <= now
    ensures LevelIsLeastRoom(calls, evict, key, now, c)
  {
    hide Gain, Level, Allow, Take;
    if calls == [] {
      GainZero(c);
      assert now - now == 0.0;
      assert Room([], [], key, now, now, c) == c.burst;
      forall from | from <= now ensures c.burst <= Room([], [], key, from, now, c) {
        GainGrows(now - from, c);
      }
      EmptyLevel(evict, key, now, c);
    } else {
      var n := |calls| - 1;
      var x := calls[n];
      MonotonePrefix(calls);
      LeastRoom(calls[..n], evict, key, x.now, c);
      RunStep(calls, evict, c);
      StepRoom(calls, evict, key, c);
      WaitRoom(calls, evict, key, x.now, now, c);
    }
  }

  lemma EmptyLevel(evict: bool, key: string, now: real, c: Limits)
    ensures RunLevel([], evict, key, now, c) == c.burst
  {
  }

  lemma StepRoom(calls: seq<Call>, evict: bool, key: string, c: Limits)
    requires Proper(c) && Monotone(calls) && calls != []
    requires LevelIsLeastRoom(calls[..|calls| - 1], evict, key, Last(calls), c)
    ensures LevelIsLeastRoom(calls, evict, key, Last(calls), c)
  {
    hide Gain, Level, Allow, Take, After;
    var n, now := |calls| - 1, Last(calls);
    var x, before, answers := calls[n], Answers(calls[..n], evict, c), Answers(calls, evict, c);
    RunStep(calls, evict, c);
    var taken := if x.key == key && answers[n] then 1.0 else 0.0;
    forall from | from <= now
      ensures Room(calls, answers, key, from, now, c) == Room(calls[..n], before, key, from, now, c) - taken
    {
    }
    var from :| from <= now && RunLevel(calls[..n], evict, key, now, c) == Room(calls[..n], before, key, from, now, c);
    assert RunLevel(calls, evict, key, now, c) == Room(calls, answers, key, from, now, c);
  }

  /** One more request now keeps the bound in the window that starts at from. */
  ghost predicate Fits(calls: seq<Call>, answers: seq<bool>, key: string, from: real, now: real, c: Limits)
    requires |calls| == |answers|
  {
    Admitted(calls, answers, key, from, now) as real + 1.0 <= c.burst + c.rate * (now - from)
  }

  /** A call is admitted exactly when admitting it keeps the bound in every window
      that ends with it. */
  lemma AdmittedIffRoom(calls: seq<Call>, evict: bool, c: Limits)
    requires Proper(c) && Monotone(calls) && calls != []
    ensures var n := |calls| - 1;
      var before, x := calls[..n], calls[n];
      Answers(calls, evict, c)[n] <==> forall from :: from <= x.now ==> Fits(before, Answers(before, evict, c), x.key, from, x.now, c)
  {
    hide Gain, Level, Allow, Take, After;
    var n := |calls| - 1;
    var before, x := calls[..n], calls[n];
    var answers := Answers(before, evict, c);
    MonotonePrefix(calls);
    LeastRoom(before, evict, x.key, x.now, c);
    RunStep(calls, evict, c);
    var level := RunLevel(before, evict, x.key, x.now, c);
    if level >= 1.0 {
      forall from | from <= x.now ensures Fits(before, answers, x.key, from, x.now, c) {
        RateTimes(x.now - from, c);
        assert level <= Room(before, answers, x.key, from, x.now, c);
      }
    } else {
      var from :| from <= x.now && level == Room(before, answers, x.key, from, x.now, c);
      RateTimes(x.now - from, c);
      assert !Fits(before, answers, x.key, from, x.now, c);
    }
  }

  lemma NoCalls(answers: seq<bool>, key: string, from: real, to: real)
    requires |answers| == 0
    ensures Admitted([], answers, key, from, to) == 0
  {
  }

  lemma NotYet(calls: seq<Call>, answers: seq<bool>, key: string, from: real, to: real)
    requires |calls| == |answers| && calls != [] && Last(calls) > to
    ensures Admitted(calls, answers, key, from, to) == Admitted(calls[..|calls| - 1], answers[..|calls| - 1], key, from, to)
  {
  }

  lemma WindowUpToNow(calls: seq<Call>, evict: bool, key: string, from: real, to: real, c: Limits)
    requires Proper(c) && Monotone(calls) && from <= to && Last(calls) <= to
    ensures Admitted(calls, Answers(calls, evict, c), key, from, to) as real <= c.burst + Gain(to - from, c)
  {
    hide Gain, Level, Allow, Take, After, Admitted;
    LeastRoom(calls, evict, key, to, c);
    RunWait(calls, evict, key, to, to, c);
    assert RunLevel(calls, evict, key, to, c) <= Room(calls, Answers(calls, evict, c), key, from, to, c);
  }

  /** No window of any run admits more than the burst and what is refilled in it. */
  lemma {:induction false} WindowBound(calls: seq<Call>, evict: bool, key: string, from: real, to: real, c: Limits)
    requires Proper(c) && Monotone(calls) && from <= to
    ensures Admitted(calls, Answers(calls, evict, c), key, from, to) as real <= c.burst + c.rate * (to - from)
  {
    hide Gain, Level, Allow, Take, After, Admitted;
    RateTimes(to - from, c);
    var answers := Answers(calls, evict, c);
    if calls == [] {
      NoCalls(answers, key, from, to);
      GainGrows(to - from, c);
    } else if Last(calls) <= to {
      WindowUpToNow(calls, evict, key, from, to, c);
    } else {
      var n := |calls| - 1;
      MonotonePrefix(calls);
      RunStep(calls, evict, c);
      WindowBound(calls[..n], evict, key, from, to, c);
      NotYet(calls, answers, key, from, to);
    }
  }

  // ---- Memory ----

  /** Every bucket has been used since the last sweep or was short of full at it. */
  ghost predicate Tidy(l: Limiter, c: Limits) {
    forall k :: k in l.buckets ==> (l.buckets[k].last < l.lastSweep ==> Gain(l.lastSweep - l.buckets[k].last, c) < c.burst)
  }

  lemma AllowTidy(l: Limiter, key: string, now: real, c: Limits)
    requires Proper(c) && Sound(l, now, c) && Tidy(l, c) && l.lastSweep <= now
    ensures var l' := Allow(l, key, now, c).0; Tidy(l', c) && l'.lastSweep <= now < l'.lastSweep + 60.0
  {
    hide Gain;
  }

  lemma SinceSweep(d: real, c: Limits)
    requires Proper(c) && Gain(d, c) < c.burst
    ensures d < c.burst / c.rate
  {
    if d >= c.burst / c.rate {
      var most := c.burst / c.rate;
      assert most * c.rate == c.burst;
      GainSum(d - most, most, c);
      assert (d - most) + most == d;
      if d > most {
        GainGrows(d - most, c);
      }
    }
  }

  lemma {:induction false} RunTidy(calls: seq<Call>, c: Limits)
    requires Proper(c) && Monotone(calls)
    ensures var l := After(calls, true, c).0;
      Tidy(l, c) && l.lastSweep <= Last(calls) && (calls != [] ==> Last(calls) < l.lastSweep + 60.0)
  {
    hide Gain, Allow, Tidy;
    if calls == [] {
      EmptyTidy(c);
    } else {
      var n := |calls| - 1;
      MonotonePrefix(calls);
      RunTidy(calls[..n], c);
      RunSound(calls[..n], true, c);
      SoundLater(After(calls[..n], true, c).0, Last(calls[..n]), calls[n].now, c);
      AllowTidy(After(calls[..n], true, c).0, calls[n].key, calls[n].now, c);
    }
  }

  lemma EmptyTidy(c: Limits)
    ensures Tidy(Init(), c)
  {
  }

  /** Whatever keys have been seen, only those used in the last minute or so are
      remembered. */
  lemma MemoryBound(calls: seq<Call>, c: Limits)
    requires Proper(c) && Monotone(calls) && calls != []
    ensures var l, now := After(calls, true, c).0, Last(calls);
      forall k :: k in l.buckets ==>
        && 0.0 <= l.buckets[k].tokens <= c.burst
        && l.buckets[k].last <= now < l.buckets[k].last + 60.0 + c.burst / c.rate
  {
    hide Gain, After;
    RunTidy(calls, c);
    RunSound(calls, true, c);
    var l, now := After(calls, true, c).0, Last(calls);
    forall k | k in l.buckets ensures now < l.buckets[k].last + 60.0 + c.burst / c.rate {
      var b := l.buckets[k];
      if b.last < l.lastSweep {
        SinceSweep(l.lastSweep - b.last, c);
      } else {
        BurstPositive(c);
      }
    }
  }

  lemma BurstPositive(c: Limits)
    requires Proper(c)
    ensures c.burst / c.rate > 0.0
  {
  }
}
