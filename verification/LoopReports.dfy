/** What the tool loop reports of its calls and errors, told from its inputs alone. */
module LoopReports {
  import opened Text
  import opened Lists
  import opened Messages
  import opened ContextWindow
  import opened Counting
  import opened ToolLoop
  import opened ToolLoopCounts
  import opened ToolLoopTranscript
  import opened RepeatedCalls
  import opened LoopEnds

  // ----- errors -----

  predicate Fails(x: Sent) {
    x.output.failure.Some?
  }

  function FailingCount(xs: seq<Sent>): nat {
    if xs == [] then 0 else FailingCount(xs[..|xs| - 1]) + One(Fails(xs[|xs| - 1]))
  }

  function FailingTools(xs: seq<Sent>): set<string> {
    set x | x in xs && Fails(x) :: Strip(x.output.name)
  }

  /** A failure unlike every one before it. */
  ghost predicate NewFailure(xs: seq<Sent>, x: Sent) {
    Fails(x) && forall j :: 0 <= j < |xs| ==> !Alike(xs[j], x)
  }

  /** How many different failures there are. */
  ghost function Kinds(xs: seq<Sent>): nat {
    if xs == [] then 0 else Kinds(xs[..|xs| - 1]) + One(NewFailure(xs[..|xs| - 1], xs[|xs| - 1]))
  }

  lemma NotedSnoc(xs: seq<Sent>)
    requires xs != []
    ensures NotedAll(xs) == NotedAll(xs[..|xs| - 1]) + [Noted(xs[|xs| - 1])]
    ensures Drop(NotedAll(xs)) == NotedAll(xs[..|xs| - 1])
  {
    var init, last := xs[..|xs| - 1], xs[|xs| - 1];
    var all, log := NotedAll(xs), NotedAll(init);
    forall i | 0 <= i < |all|
      ensures all[i] == (log + [Noted(last)])[i]
    {
      if i < |log| {
        assert xs[i] == init[i];
      }
    }
    assert all == log + [Noted(last)];
    LogSnoc(log, Noted(last));
  }

  lemma {:induction false} FailuresAre(xs: seq<Sent>)
    ensures AllFailures(NotedAll(xs)) == FailingCount(xs)
  {
    if xs != [] {
      NotedSnoc(xs);
      FailuresAre(xs[..|xs| - 1]);
      CountedIs(xs[|xs| - 1]);
    }
  }

  lemma {:induction false} ToolsAre(xs: seq<Sent>, t: string)
    ensures ToolFailures(NotedAll(xs), t) > 0 <==> t in FailingTools(xs)
  {
    if xs != [] {
      var init, last := xs[..|xs| - 1], xs[|xs| - 1];
      NotedSnoc(xs);
      ToolsAre(init, t);
      CountedIs(last);
      assert xs == init + [last];
    }
  }

  ghost function FailureKeys(log: seq<Observation>): set<FailureKey> {
    set ob | ob in log && ob.Failed? :: ob.fkey
  }

  lemma KeysSnoc(log: seq<Observation>, ob: Observation)
    ensures FailureKeys(log + [ob]) == FailureKeys(log) + if ob.Failed? then {ob.fkey} else {}
  {
    forall k
      ensures k in FailureKeys(log + [ob]) <==> k in FailureKeys(log) || (ob.Failed? && k == ob.fkey)
    {
      assert k in FailureKeys(log + [ob]) <==> Failed(k) in log + [ob];
      assert k in FailureKeys(log) <==> Failed(k) in log;
    }
  }

  lemma KindsStep(xs: seq<Sent>, x: Sent)
    ensures |FailureKeys(NotedAll(xs) + [Noted(x)])| == |FailureKeys(NotedAll(xs))| + One(NewFailure(xs, x))
  {
    var keys := FailureKeys(NotedAll(xs));
    KeysSnoc(NotedAll(xs), Noted(x));
    CountedIs(x);
    if Fails(x) {
      NewIs(xs, x);
      if Noted(x).fkey in keys {
        assert keys + {Noted(x).fkey} == keys;
      }
    } else {
      assert keys + {} == keys;
    }
  }

  lemma {:induction false} KindsAre(xs: seq<Sent>)
    ensures |FailureKeys(NotedAll(xs))| == Kinds(xs)
  {
    if xs == [] {
      assert FailureKeys(NotedAll(xs)) == {};
    } else {
      NotedSnoc(xs);
      KindsAre(xs[..|xs| - 1]);
      KindsStep(xs[..|xs| - 1], xs[|xs| - 1]);
    }
  }

  lemma NewIs(xs: seq<Sent>, x: Sent)
    requires Fails(x)
    ensures Noted(x).Failed? && (NewFailure(xs, x) <==> Noted(x).fkey !in FailureKeys(NotedAll(xs)))
  {
    CountedIs(x);
    var log := NotedAll(xs);
    forall j | 0 <= j < |xs|
      ensures Alike(xs[j], x) <==> log[j] == Noted(x)
    {
      AlikeExactly(xs[j], x);
    }
    if Noted(x).fkey in FailureKeys(log) {
      assert Noted(x) in log;
      var j :| 0 <= j < |log| && log[j] == Noted(x);
      assert Alike(xs[j], x);
    }
  }

  lemma {:induction false} FailureKeyCounts(log: seq<Observation>, k: FailureKey)
    ensures TimesFailed(log, k) > 0 <==> k in FailureKeys(log)
  {
    if log != [] {
      FailureKeyCounts(Drop(log), k);
      assert log == Drop(log) + [log[|log| - 1]];
    }
  }

  /** The reports of a history: one error per failure, a retry for each but the first of every failing tool, one
      fingerprint per different failure. */
  ghost predicate Reports(c: Counters, xs: seq<Sent>) {
    Total(c.failures) == FailingCount(xs) && c.retries + |FailingTools(xs)| == FailingCount(xs) &&
    |c.fingerprints| == Kinds(xs)
  }

  lemma CountedReports(c: Counters, xs: seq<Sent>)
    requires Counted(c, NotedAll(xs))
    ensures Reports(c, xs)
  {
    var log := NotedAll(xs);
    FailuresAre(xs);
    KindsAre(xs);
    forall t
      ensures t in c.byTool <==> t in FailingTools(xs)
    {
      ToolsAre(xs, t);
      assert Get(c.byTool, t) == ToolFailures(log, t);
    }
    assert c.byTool.Keys == FailingTools(xs);
    forall k
      ensures k in c.failures <==> k in FailureKeys(log)
    {
      FailureKeyCounts(log, k);
      assert Get(c.failures, k) == TimesFailed(log, k);
    }
    assert c.failures.Keys == FailureKeys(log);
    DistinctLength(c.fingerprints, c.failures.Keys);
  }

  /** The outputs processed: up to the one that completes the first three alike, or all of them. */
  ghost predicate AreProcessed(xs: seq<Sent>, all: seq<Sent>) {
    if ThreeAlike(all) then exists n: nat :: FirstThree(all, n) && xs == all[..n] else xs == all
  }

  /** What the loop counts from the start is what its processed outputs say. */
  lemma ReportsExactly(s: State, cfg: Config, script: seq<Input>, xs: seq<Sent>)
    requires s.counters == NO_COUNTS && s.log == [] && AreProcessed(xs, AllSent(cfg, script))
    ensures Reports(Loop(s, cfg, script).state.counters, xs)
  {
    var r, all := Loop(s, cfg, script), AllSent(cfg, script);
    LoopEndsExactly(s, cfg, script);
    FreshCounts(s);
    LoopKeepsCounts(s, cfg, script);
    if ThreeAlike(all) {
      var n: nat :| FirstThree(all, n) && xs == all[..n];
      var m: nat :| StopsAt(r.state.log, r.exit.stop, all, m);
      FirstThreeIsOne(all, m, n);
    }
    CountedReports(r.state.counters, xs);
  }

  // ----- calls -----

  function NamesOf(calls: seq<Call>): seq<string> {
    seq(|calls|, i requires 0 <= i < |calls| => calls[i].name)
  }

  /** The calls run until n outputs are processed: those of each iteration that asks for tools, up to the limit. */
  function CallsRun(cfg: Config, script: seq<Input>, n: nat): seq<Call> {
    if script == [] || !AsksForTools(script[0]) then []
    else
      Limited(cfg, script[0].answer.calls) +
      if !RunsTools(script[0]) || n <= |script[0].outputs| then []
      else CallsRun(cfg, script[1..], n - |script[0].outputs|)
  }

  lemma {:induction false} NamesAppend(names: seq<string>, a: seq<Call>, b: seq<Call>)
    ensures AddNames(names, a + b) == AddNames(AddNames(names, a), b)
    decreases |a|
  {
    if a == [] {
      NilSeq(b);
    } else {
      var n := Strip(a[0].name);
      assert (a + b)[1..] == a[1..] + b;
      NamesAppend(if n != "" && n !in names then names + [n] else names, a[1..], b);
    }
  }

  lemma {:induction false} NamesAre(had: seq<string>, calls: seq<Call>)
    ensures AddNames(Dedupe(had), calls) == Dedupe(had + NonBlankNames(NamesOf(calls)))
    decreases |calls|
  {
    if calls == [] {
      NilSeq(had);
    } else {
      var n, rest := Strip(calls[0].name), calls[1..];
      assert NamesOf(calls)[1..] == NamesOf(rest);
      var later := NonBlankNames(NamesOf(rest));
      if n == "" {
        NilSeq(later);
        NamesAre(had, rest);
      } else {
        DedupeSnoc(had, n);
        NamesAre(had + [n], rest);
        AssocSeq(had, [n], later);
      }
    }
  }

  /** The number the loop processes: up to the first third alike, or more than there are. */
  ghost predicate ProcessedUpTo(n: nat, all: seq<Sent>) {
    if ThreeAlike(all) then FirstThree(all, n) else n == |all| + 1
  }

  lemma ProcessedAfter(n: nat, xs: seq<Sent>, ys: seq<Sent>)
    requires ProcessedUpTo(n, xs + ys) && !ThreeAlike(xs)
    ensures n > |xs|
  {
    var all := xs + ys;
    if ThreeAlike(all) && n <= |xs| {
      assert all[..n] == xs[..n] && xs[..|xs|] == xs;
      PrefixAlike(xs, n, |xs|);
    }
  }

  lemma CycleCalls(s: State, cfg: Config, i: Input)
    ensures var r, calls := Cycle(s, cfg, i).state, if AsksForTools(i) then Limited(cfg, i.answer.calls) else [];
            r.totalCalls == s.totalCalls + |calls| && r.toolNames == AddNames(s.toolNames, calls)
  {
    if AsksForTools(i) {
      LimitedIs(cfg, i.answer.calls);
      var t := s.(messages := Trimmed(s.messages, cfg.budget, cfg.env, i.lib));
      var a := Asked(t, cfg, i.answer.text, i.answer.calls);
      ToolsKeepCalls(a, cfg, i.answer.calls, i.outputs);
    }
  }

  lemma ToolsKeepCalls(a: State, cfg: Config, calls: seq<Call>, outputs: seq<Output>)
    ensures var r := RunTools(a, cfg, calls, outputs).state;
            r.totalCalls == a.totalCalls && r.toolNames == a.toolNames
  {
    TakeKeepsCalls(a, cfg.memory, outputs, Executable(cfg, calls));
  }

  lemma {:induction false} TakeKeepsCalls(s: State, memory: bool, outputs: seq<Output>, calls: seq<Call>)
    ensures var t := TakeOutputs(s, memory, outputs, calls).state;
            t.totalCalls == s.totalCalls && t.toolNames == s.toolNames
    decreases |outputs|
  {
    if outputs != [] {
      TakeKeepsCalls(TakeOutput(s, memory, outputs[0], calls), memory, outputs[1..], calls);
    }
  }

  ghost predicate CallsAre(r: State, s: State, calls: seq<Call>) {
    r.totalCalls == s.totalCalls + |calls| && r.toolNames == AddNames(s.toolNames, calls)
  }

  lemma CallsMore(s: State, t: State, r: State, a: seq<Call>, b: seq<Call>)
    requires CallsAre(t, s, a) && CallsAre(r, t, b)
    ensures CallsAre(r, s, a + b)
  {
    NamesAppend(s.toolNames, a, b);
  }

  lemma StopsWhere(r: Result, xs: seq<Sent>, ys: seq<Sent>, n: nat)
    requires StopsIn(r, xs) && ProcessedUpTo(n, xs + ys)
    ensures n <= |xs|
  {
    var m: nat :| StopsAt(r.state.log, r.exit.stop, xs, m);
    StopsAtMore(r.state.log, r.exit.stop, xs, ys, m);
    StopsInMore(r, xs, ys);
    StopsMeansThree(r, xs + ys);
    FirstThreeIsOne(xs + ys, m, n);
  }

  lemma {:induction false} CallsFollow(s: State, cfg: Config, script: seq<Input>, xs: seq<Sent>, n: nat)
    requires Follows(s, xs) && ProcessedUpTo(n, xs + AllSent(cfg, script)) && n > |xs|
    ensures CallsAre(Loop(s, cfg, script).state, s, CallsRun(cfg, script, n - |xs|))
    decreases |script|
  {
    if script != [] {
      var i, rest := script[0], script[1..];
      var r := Cycle(s, cfg, i);
      CycleCalls(s, cfg, i);
      CycleFollows(s, cfg, i, xs);
      if RunsTools(i) {
        var first := Limited(cfg, i.answer.calls);
        var sent := SentAll(i.outputs, first);
        AssocSeq(xs, sent, AllSent(cfg, rest));
        if r.exit == Continue {
          ProcessedAfter(n, xs + sent, AllSent(cfg, rest));
          CallsFollow(r.state, cfg, rest, xs + sent, n);
          CallsMore(s, r.state, Loop(s, cfg, script).state, first, CallsRun(cfg, rest, n - |xs| - |sent|));
        } else {
          StopsWhere(r, xs + sent, AllSent(cfg, rest), n);
          NilSeq(first);
        }
      } else if AsksForTools(i) {
        NilSeq(Limited(cfg, i.answer.calls));
      }
    }
  }

  /** From the start the loop counts every call it runs, also those of an iteration cancelled before its tools, and
      lists their non-blank names once each in order. */
  lemma CallsExactly(s: State, cfg: Config, script: seq<Input>, n: nat)
    requires s.counters == NO_COUNTS && s.log == [] && s.totalCalls == 0 && s.toolNames == []
    requires ProcessedUpTo(n, AllSent(cfg, script))
    ensures var end, calls := Loop(s, cfg, script).state, CallsRun(cfg, script, n);
            end.totalCalls == |calls| && end.toolNames == Dedupe(NonBlankNames(NamesOf(calls)))
  {
    CallsFromStart(s, cfg, script, n);
    NamesFromNone(CallsRun(cfg, script, n));
  }

  lemma CallsFromStart(s: State, cfg: Config, script: seq<Input>, n: nat)
    requires s.counters == NO_COUNTS && s.log == [] && ProcessedUpTo(n, AllSent(cfg, script))
    ensures CallsAre(Loop(s, cfg, script).state, s, CallsRun(cfg, script, n))
  {
    assert s.log == NotedAll([]);
    NilSeq(AllSent(cfg, script));
    ProcessedAfter(n, [], AllSent(cfg, script));
    CallsFollow(s, cfg, script, [], n);
  }

  lemma NamesFromNone(calls: seq<Call>)
    ensures AddNames([], calls) == Dedupe(NonBlankNames(NamesOf(calls)))
  {
    NamesAre([], calls);
    NilSeq(NonBlankNames(NamesOf(calls)));
  }
}
