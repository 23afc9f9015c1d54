/** Repetition counting in the tool loop: what the counters hold, and why the loop cannot go on without progress. */
module ToolLoopCounts {
  import opened Messages
  import opened ContextWindow
  import opened Counting
  import opened ToolLoop

  const NO_COUNTS := Counters(map[], map[], map[], [], 0)

  function Drop(log: seq<Observation>): seq<Observation>
    requires log != []
  {
    log[..|log| - 1]
  }

  function One(b: bool): nat { if b then 1 else 0 }

  /** How often the failure occurred. */
  function TimesFailed(log: seq<Observation>, k: FailureKey): nat {
    if log == [] then 0 else TimesFailed(Drop(log), k) + One(log[|log| - 1] == Failed(k))
  }

  function TimesSucceeded(log: seq<Observation>, k: SuccessKey): nat {
    if log == [] then 0 else TimesSucceeded(Drop(log), k) + One(log[|log| - 1] == Succeeded(k))
  }

  function ToolFailures(log: seq<Observation>, tool: string): nat {
    if log == [] then 0
    else ToolFailures(Drop(log), tool) + One(log[|log| - 1].Failed? && log[|log| - 1].fkey.tool == tool)
  }

  function AllFailures(log: seq<Observation>): nat {
    if log == [] then 0 else AllFailures(Drop(log)) + One(log[|log| - 1].Failed?)
  }

  function AllSuccesses(log: seq<Observation>): nat {
    if log == [] then 0 else AllSuccesses(Drop(log)) + One(log[|log| - 1].Succeeded?)
  }

  /** The maps hold exactly the number of occurrences, and only keys that occurred. */
  ghost predicate MapsCount(c: Counters, log: seq<Observation>) {
    (forall k :: Get(c.failures, k) == TimesFailed(log, k)) && (forall k :: k in c.failures ==> c.failures[k] > 0) &&
    (forall t :: Get(c.byTool, t) == ToolFailures(log, t)) && (forall t :: t in c.byTool ==> c.byTool[t] > 0) &&
    (forall k :: Get(c.successes, k) == TimesSucceeded(log, k)) && (forall k :: k in c.successes ==> c.successes[k] > 0)
  }

  /** The totals agree with the log; a retry is a failure of a tool that failed before. */
  ghost predicate TotalsCount(c: Counters, log: seq<Observation>) {
    Total(c.failures) == Total(c.byTool) == AllFailures(log) && Total(c.successes) == AllSuccesses(log) &&
    c.retries + |c.byTool| == AllFailures(log)
  }

  /** One fingerprint for each failure that occurred. */
  ghost predicate FingerprintsCount(c: Counters) {
    (forall k :: k in c.fingerprints <==> k in c.failures) &&
    forall i, j :: 0 <= i < j < |c.fingerprints| ==> c.fingerprints[i] != c.fingerprints[j]
  }

  ghost predicate Counted(c: Counters, log: seq<Observation>) {
    MapsCount(c, log) && TotalsCount(c, log) && FingerprintsCount(c)
  }

  lemma LogSnoc(log: seq<Observation>, ob: Observation)
    ensures Drop(log + [ob]) == log && (log + [ob])[|log|] == ob
  {
  }

  lemma CountKeepsMaps(c: Counters, log: seq<Observation>, ob: Observation)
    requires MapsCount(c, log)
    ensures MapsCount(Count(c, ob), log + [ob])
  {
    LogSnoc(log, ob);
  }

  lemma CountKeepsTotals(c: Counters, log: seq<Observation>, ob: Observation)
    requires TotalsCount(c, log) && forall t :: t in c.byTool ==> c.byTool[t] > 0
    ensures TotalsCount(Count(c, ob), log + [ob])
  {
    LogSnoc(log, ob);
    match ob
    case Failed(k) =>
      TotalBump(c.failures, k);
      TotalBump(c.byTool, k.tool);
    case Succeeded(k) =>
      TotalBump(c.successes, k);
    case Unclaimed =>
  }

  lemma CountKeepsFingerprints(c: Counters, ob: Observation)
    requires FingerprintsCount(c)
    ensures FingerprintsCount(Count(c, ob))
  {
  }

  // ----- the bound -----

  ghost predicate AtMostTwo(c: Counters) {
    (forall k :: k in c.failures ==> c.failures[k] <= 2) && (forall k :: k in c.successes ==> c.successes[k] <= 2)
  }

  /** Every counter is at most two, except one that is three. */
  ghost predicate OneThree(c: Counters) {
    (exists k :: k in c.failures && c.failures[k] == 3 &&
       AtMostTwo(c.(failures := c.failures - {k}))) ||
    (exists k :: k in c.successes && c.successes[k] == 3 &&
       AtMostTwo(c.(successes := c.successes - {k})))
  }

  lemma CountStops(c: Counters, ob: Observation)
    requires AtMostTwo(c)
    ensures var d := Count(c, ob);
            if StopAfter(d, ob) == Running then AtMostTwo(d) else OneThree(d)
  {
    var d := Count(c, ob);
    match ob
    case Failed(k) =>
      if StopAfter(d, ob) != Running {
        assert AtMostTwo(d.(failures := d.failures - {k}));
      }
    case Succeeded(k) =>
      if StopAfter(d, ob) != Running {
        assert AtMostTwo(d.(successes := d.successes - {k}));
      }
    case Unclaimed =>
  }

  /** The counters of a state that is still running, or that just stopped. */
  ghost predicate CountInv(s: State, stop: Stop) {
    Counted(s.counters, s.log) && if stop == Running then AtMostTwo(s.counters) else OneThree(s.counters)
  }

  lemma {:induction false} TakeKeepsCounts(s: State, memory: bool, outputs: seq<Output>, calls: seq<Call>)
    requires CountInv(s, Running)
    ensures var t := TakeOutputs(s, memory, outputs, calls); CountInv(t.state, t.stop)
    decreases |outputs|
  {
    if outputs != [] {
      var ob := Observe(outputs[0], calls);
      CountKeepsMaps(s.counters, s.log, ob);
      CountKeepsTotals(s.counters, s.log, ob);
      CountKeepsFingerprints(s.counters, ob);
      CountStops(s.counters, ob);
      var t := TakeOutput(s, memory, outputs[0], calls);
      if StopAfter(t.counters, ob) == Running {
        TakeKeepsCounts(t, memory, outputs[1..], calls);
      }
    }
  }

  function StopOf(e: Exit): Stop {
    if e.Stopped? then e.stop else Running
  }

  lemma CycleKeepsCounts(s: State, cfg: Config, i: Input)
    requires CountInv(s, Running)
    ensures var r := Cycle(s, cfg, i); CountInv(r.state, StopOf(r.exit)) && (r.exit.Stopped? ==> r.exit.stop != Running)
  {
    var t := s.(messages := Trimmed(s.messages, cfg.budget, cfg.env, i.lib));
    if i.answer.Answer? {
      var a := Asked(t, cfg, i.answer.text, i.answer.calls);
      ToolsKeepCounts(a, cfg, i.answer.calls, i.outputs);
      ToolsKeepCounts(a, cfg, i.answer.calls, []);
    }
  }

  lemma ToolsKeepCounts(a: State, cfg: Config, calls: seq<Call>, outputs: seq<Output>)
    requires CountInv(a, Running)
    ensures var r := RunTools(a, cfg, calls, outputs);
            CountInv(r.state, StopOf(r.exit)) && (r.exit.Stopped? ==> r.exit.stop != Running)
  {
    TakeKeepsCounts(a, cfg.memory, outputs, Executable(cfg, calls));
  }

  lemma {:induction false} LoopKeepsCounts(s: State, cfg: Config, script: seq<Input>)
    requires CountInv(s, Running)
    ensures var r := Loop(s, cfg, script);
            CountInv(r.state, StopOf(r.exit)) && (r.exit.Stopped? ==> r.exit.stop != Running)
    decreases |script|
  {
    if script != [] {
      CycleKeepsCounts(s, cfg, script[0]);
      var r := Cycle(s, cfg, script[0]);
      if r.exit == Continue {
        LoopKeepsCounts(r.state, cfg, script[1..]);
      }
    }
  }

  lemma TotalOneThree<K>(m: map<K, nat>, k: K)
    requires k in m && m[k] == 3 && forall j :: j in m && j != k ==> m[j] <= 2
    ensures Total(m) <= 2 * |m| + 1
  {
    TotalAt(m, k);
    var rest := m - {k};
    TotalAtMostTwo(rest);
    assert m.Keys == rest.Keys + {k};
    assert |m| == |rest| + 1;
  }

  /** Both totals together stay within twice the number of distinct keys, plus one for the repetition that stopped. */
  lemma TotalsWithin(c: Counters)
    requires AtMostTwo(c) || OneThree(c)
    ensures Total(c.failures) + Total(c.successes) <= 2 * (|c.failures| + |c.successes|) + 1
  {
    if AtMostTwo(c) {
      TotalAtMostTwo(c.failures);
      TotalAtMostTwo(c.successes);
    } else if k :| k in c.failures && c.failures[k] == 3 && AtMostTwo(c.(failures := c.failures - {k})) {
      OthersAtMostTwo(c.failures, k);
      TotalOneThree(c.failures, k);
      TotalAtMostTwo(c.successes);
    } else {
      var k :| k in c.successes && c.successes[k] == 3 && AtMostTwo(c.(successes := c.successes - {k}));
      OthersAtMostTwo(c.successes, k);
      TotalOneThree(c.successes, k);
      TotalAtMostTwo(c.failures);
    }
  }

  lemma OthersAtMostTwo<K>(m: map<K, nat>, k: K)
    requires forall j :: j in m - {k} ==> (m - {k})[j] <= 2
    ensures forall j :: j in m && j != k ==> m[j] <= 2
  {
    forall j | j in m && j != k
      ensures m[j] <= 2
    {
      assert j in m - {k};
    }
  }

  predicate NoUnclaimed(log: seq<Observation>) {
    Unclaimed !in log
  }

  lemma {:induction false} LogSplits(log: seq<Observation>)
    requires NoUnclaimed(log)
    ensures |log| == AllFailures(log) + AllSuccesses(log)
  {
    if log != [] {
      LogSplits(Drop(log));
      assert log[|log| - 1] in log;
    }
  }

  lemma FreshCounts(s: State)
    requires s.counters == NO_COUNTS && s.log == []
    ensures CountInv(s, Running)
  {
  }

  /** No progress, no run: if every processed output answers a known call, then the number of outputs processed
      over the whole run is at most 2K + 1 for K distinct failure and success keys; no counter exceeds two, except
      one that reached three and ended the loop. */
  lemma {:induction false} NoProgressBound(s: State, cfg: Config, script: seq<Input>)
    requires s.counters == NO_COUNTS && s.log == []
    requires NoUnclaimed(Loop(s, cfg, script).state.log)
    ensures var r := Loop(s, cfg, script);
            var c := r.state.counters;
            |r.state.log| <= 2 * (|c.failures| + |c.successes|) + 1 &&
            MapsCount(c, r.state.log) && if r.exit.Stopped? then OneThree(c) else AtMostTwo(c)
  {
    FreshCounts(s);
    LoopKeepsCounts(s, cfg, script);
    var r := Loop(s, cfg, script);
    LogSplits(r.state.log);
    TotalsWithin(r.state.counters);
  }

  /** What the response reports: the error count is the sum over failure keys and over tools, the retry count is the
      failures less the distinct failing tools, and there is one fingerprint per distinct failure. */
  lemma {:induction false} ReportedCounts(s: State, cfg: Config, script: seq<Input>)
    requires s.counters == NO_COUNTS && s.log == []
    ensures var end := Loop(s, cfg, script).state;
            var c := end.counters;
            Total(c.failures) == Total(c.byTool) == AllFailures(end.log) &&
            c.retries == AllFailures(end.log) - |c.byTool| && |c.fingerprints| == |c.failures|
  {
    FreshCounts(s);
    LoopKeepsCounts(s, cfg, script);
    var c := Loop(s, cfg, script).state.counters;
    DistinctLength(c.fingerprints, c.failures.Keys);
  }

  lemma {:induction false} DistinctLength<T>(xs: seq<T>, keys: set<T>)
    requires (forall x :: x in xs <==> x in keys) && forall i, j :: 0 <= i < j < |xs| ==> xs[i] != xs[j]
    ensures |xs| == |keys|
  {
    if xs == [] {
      assert keys == {};
    } else {
      var last := xs[|xs| - 1];
      var init := xs[..|xs| - 1];
      assert last in keys;
      forall x
        ensures x in init <==> x in keys - {last}
      {
        if x in keys - {last} {
          var i :| 0 <= i < |xs| && xs[i] == x;
          assert init[i] == x;
        }
      }
      DistinctLength(init, keys - {last});
    }
  }
}
