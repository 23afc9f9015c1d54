/** How the tool loop ends and what it reports, told from its inputs alone. */
module LoopEnds {
  import opened Lists
  import opened Messages
  import opened ContextWindow
  import opened ToolLoop
  import opened ToolLoopCounts
  import opened ToolLoopTranscript
  import opened RepeatedCalls

  /** The calls of an answer that are run: at most the configured number, and never fewer than two. */
  function Limited(cfg: Config, calls: seq<Call>): seq<Call> {
    if |calls| <= 2 || |calls| <= cfg.maxTools then calls else calls[..if cfg.maxTools <= 2 then 2 else cfg.maxTools]
  }

  /** The iteration runs its tools. */
  predicate RunsTools(i: Input) {
    AsksForTools(i) && !i.cancelBeforeTools
  }

  /** How an iteration that runs no tools ends the loop. */
  function EndOf(i: Input): Exit
    requires !RunsTools(i)
  {
    if i.cancelHead then Cancelled
    else if i.answer.Unreachable? then LlmDown
    else if i.cancelAfterAnswer then Cancelled
    else if i.answer.calls == [] then Answered
    else CancelledBeforeTools
  }

  /** How many iterations at the start run their tools. */
  function Rounds(script: seq<Input>): (n: nat)
    ensures n <= |script| && (n < |script| ==> !RunsTools(script[n]))
  {
    if script == [] || !RunsTools(script[0]) then 0 else 1 + Rounds(script[1..])
  }

  /** All the outputs of those iterations. */
  function AllSent(cfg: Config, script: seq<Input>): seq<Sent> {
    if script == [] || !RunsTools(script[0]) then []
    else SentAll(script[0].outputs, Limited(cfg, script[0].answer.calls)) + AllSent(cfg, script[1..])
  }

  lemma LimitedIs(cfg: Config, calls: seq<Call>)
    ensures Limited(cfg, calls) == Executable(cfg, calls) && (calls != [] ==> Executable(cfg, calls) != [])
  {
  }

  // ----- processing outputs -----

  /** What processing the outputs after the history xs comes to. */
  ghost predicate TakenAs(t: Taken, xs: seq<Sent>, outputs: seq<Output>, calls: seq<Call>) {
    t.left <= |outputs| &&
    var ys := xs + SentAll(outputs, calls);
    if t.stop == Running then t.left == 0 && Follows(t.state, ys) else StopsAt(t.state.log, t.stop, ys, |ys| - t.left)
  }

  lemma SentCons(xs: seq<Sent>, outputs: seq<Output>, calls: seq<Call>)
    requires outputs != []
    ensures xs + SentAll(outputs, calls) == (xs + [Sent(outputs[0], calls)]) + SentAll(outputs[1..], calls)
  {
  }

  /** The first three alike are the same in a longer history. */
  lemma StopsAtMore(log: seq<Observation>, stop: Stop, xs: seq<Sent>, ys: seq<Sent>, n: nat)
    requires StopsAt(log, stop, xs, n)
    ensures StopsAt(log, stop, xs + ys, n)
  {
    assert (xs + ys)[..n] == xs[..n] && (xs + ys)[..n - 1] == xs[..n - 1];
  }

  lemma TakenMore(t: Taken, xs: seq<Sent>, outputs: seq<Output>, calls: seq<Call>)
    requires outputs != [] && TakenAs(t, xs + [Sent(outputs[0], calls)], outputs[1..], calls)
    ensures TakenAs(t, xs, outputs, calls)
  {
    SentCons(xs, outputs, calls);
  }

  lemma TakenFirst(t: State, stop: Stop, xs: seq<Sent>, outputs: seq<Output>, calls: seq<Call>)
    requires outputs != [] && stop != Running
    requires StopsAt(t.log, stop, xs + [Sent(outputs[0], calls)], |xs| + 1)
    ensures TakenAs(Taken(t, stop, |outputs| - 1), xs, outputs, calls)
  {
    SentCons(xs, outputs, calls);
    StopsAtMore(t.log, stop, xs + [Sent(outputs[0], calls)], SentAll(outputs[1..], calls), |xs| + 1);
  }

  lemma {:induction false} TakeFollows(s: State, memory: bool, outputs: seq<Output>, calls: seq<Call>, xs: seq<Sent>)
    requires Follows(s, xs)
    ensures TakenAs(TakeOutputs(s, memory, outputs, calls), xs, outputs, calls)
    decreases |outputs|
  {
    if outputs == [] {
      assert xs + SentAll(outputs, calls) == xs;
    } else {
      var o := outputs[0];
      var t := TakeOutput(s, memory, o, calls);
      var stop := StopAfter(t.counters, Observe(o, calls));
      TakeOneFollows(s, memory, o, calls, xs);
      if stop == Running {
        TakeFollows(t, memory, outputs[1..], calls, xs + [Sent(o, calls)]);
        TakenMore(TakeOutputs(t, memory, outputs[1..], calls), xs, outputs, calls);
      } else {
        TakenFirst(t, stop, xs, outputs, calls);
      }
    }
  }

  // ----- one iteration -----

  /** The run ends on the output that completes the first three alike. */
  ghost predicate StopsIn(r: Result, all: seq<Sent>) {
    r.exit.Stopped? && exists n: nat :: StopsAt(r.state.log, r.exit.stop, all, n)
  }

  lemma StopsInMore(r: Result, xs: seq<Sent>, ys: seq<Sent>)
    requires StopsIn(r, xs)
    ensures StopsIn(r, xs + ys)
  {
    var n: nat :| StopsAt(r.state.log, r.exit.stop, xs, n);
    StopsAtMore(r.state.log, r.exit.stop, xs, ys, n);
  }

  lemma FinishKeeps(t: Taken, cfg: Config, skipped: seq<Call>)
    ensures var r := Finish(t, cfg, skipped);
            r.state.log == t.state.log && r.state.counters == t.state.counters &&
            r.exit == if t.stop == Running then Continue else Stopped(t.stop, t.left)
  {
  }

  lemma ToolsFollow(a: State, cfg: Config, calls: seq<Call>, outputs: seq<Output>, xs: seq<Sent>)
    requires Follows(a, xs)
    ensures var r, all := RunTools(a, cfg, calls, outputs), xs + SentAll(outputs, Executable(cfg, calls));
            if r.exit == Continue then Follows(r.state, all) else StopsIn(r, all)
  {
    var ex := Executable(cfg, calls);
    var t := TakeOutputs(a, cfg.memory, outputs, ex);
    TakeFollows(a, cfg.memory, outputs, ex, xs);
    FinishKeeps(t, cfg, Skipped(cfg, calls));
    var ys := xs + SentAll(outputs, ex);
    if t.stop != Running {
      assert StopsAt(t.state.log, t.stop, ys, |ys| - t.left);
    }
  }

  lemma CycleFollows(s: State, cfg: Config, i: Input, xs: seq<Sent>)
    requires Follows(s, xs)
    ensures var r := Cycle(s, cfg, i);
            if RunsTools(i) then
              var all := xs + SentAll(i.outputs, Limited(cfg, i.answer.calls));
              if r.exit == Continue then Follows(r.state, all) else StopsIn(r, all)
            else r.exit == EndOf(i) && r.state.log == s.log
  {
    var t := s.(messages := Trimmed(s.messages, cfg.budget, cfg.env, i.lib));
    if i.answer.Answer? {
      LimitedIs(cfg, i.answer.calls);
      var a := Asked(t, cfg, i.answer.text, i.answer.calls);
      assert Follows(a, xs);
      ToolsFollow(a, cfg, i.answer.calls, i.outputs, xs);
    }
  }

  // ----- the loop -----

  /** How the loop ends on a script whose outputs, after earlier ones, are all. */
  ghost predicate EndsAs(r: Result, all: seq<Sent>, script: seq<Input>) {
    if ThreeAlike(all) then StopsIn(r, all)
    else
      r.state.log == NotedAll(all) &&
      r.exit == if Rounds(script) == |script| then Exhausted else EndOf(script[Rounds(script)])
  }

  lemma PrefixAlike(xs: seq<Sent>, m: nat, n: nat)
    requires m <= n <= |xs| && ThreeAlike(xs[..m])
    ensures ThreeAlike(xs[..n])
  {
    var i, j, k :| AlikeAt(xs[..m], i, j, k);
    assert AlikeAt(xs[..n], i, j, k);
  }

  lemma StopsMeansThree(r: Result, all: seq<Sent>)
    requires StopsIn(r, all)
    ensures ThreeAlike(all)
  {
    var n: nat :| StopsAt(r.state.log, r.exit.stop, all, n);
    PrefixAlike(all, n, |all|);
    assert all[..|all|] == all;
  }

  lemma {:induction false} LoopFollows(s: State, cfg: Config, script: seq<Input>, xs: seq<Sent>)
    requires Follows(s, xs)
    ensures EndsAs(Loop(s, cfg, script), xs + AllSent(cfg, script), script)
    decreases |script|
  {
    if script == [] {
      NilSeq(xs);
    } else {
      var i, rest := script[0], script[1..];
      var r := Cycle(s, cfg, i);
      CycleFollows(s, cfg, i, xs);
      if RunsTools(i) {
        var sent := SentAll(i.outputs, Limited(cfg, i.answer.calls));
        AssocSeq(xs, sent, AllSent(cfg, rest));
        if r.exit == Continue {
          LoopFollows(r.state, cfg, rest, xs + sent);
        } else {
          StopsInMore(r, xs + sent, AllSent(cfg, rest));
          StopsMeansThree(r, xs + (sent + AllSent(cfg, rest)));
        }
      } else {
        NilSeq(xs);
      }
    }
  }

  /** The loop from empty counters ends early exactly when some call comes three times with the same result among the
      outputs of the leading iterations that run their tools; then it has processed exactly the outputs up to the
      first third one. Otherwise it processes them all and ends as the first other iteration does, or by exhaustion. */
  lemma LoopEndsExactly(s: State, cfg: Config, script: seq<Input>)
    requires s.counters == NO_COUNTS && s.log == []
    ensures EndsAs(Loop(s, cfg, script), AllSent(cfg, script), script)
  {
    assert s.log == NotedAll([]);
    LoopFollows(s, cfg, script, []);
    NilSeq(AllSent(cfg, script));
  }

  /** The output that completes the first three alike is a failure. */
  ghost predicate FailsFirst(all: seq<Sent>) {
    exists n: nat :: FirstThree(all, n) && all[n - 1].output.failure.Some?
  }

  /** The outcome of a run in the words of its inputs: what stops it, whether artifacts were made. */
  ghost predicate OutcomeIs(o: Outcome, all: seq<Sent>, script: seq<Input>, artifacts: bool) {
    var n := Rounds(script);
    if ThreeAlike(all) then o == if artifacts || FailsFirst(all) then Partial else Failing
    else if n == |script| then o == if artifacts then Partial else Failing
    else if script[n].cancelHead then o == WasCancelled
    else if script[n].answer.Unreachable? then o == if artifacts then Partial else Unavailable
    else o == if !script[n].cancelAfterAnswer && script[n].answer.calls == [] then Success else WasCancelled
  }

  lemma NoEarlierThree(all: seq<Sent>, m: nat, n: nat)
    requires m <= |all| && ThreeAlike(all[..m]) && FirstThree(all, n)
    ensures n <= m
  {
    if m < n {
      PrefixAlike(all, m, n - 1);
    }
  }

  lemma FirstThreeIsOne(all: seq<Sent>, m: nat, n: nat)
    requires FirstThree(all, m) && FirstThree(all, n)
    ensures m == n
  {
    NoEarlierThree(all, m, n);
    NoEarlierThree(all, n, m);
  }

  lemma StopKind(r: Result, all: seq<Sent>)
    requires StopsIn(r, all)
    ensures r.exit.stop == SameFailure <==> FailsFirst(all)
  {
    var n: nat :| StopsAt(r.state.log, r.exit.stop, all, n);
    if FailsFirst(all) {
      var m: nat :| FirstThree(all, m) && all[m - 1].output.failure.Some?;
      FirstThreeIsOne(all, m, n);
    }
  }

  lemma OutcomeOfEnd(r: Result, all: seq<Sent>, script: seq<Input>, artifacts: bool)
    requires EndsAs(r, all, script)
    ensures OutcomeIs(OutcomeOf(r.exit, artifacts), all, script, artifacts)
  {
    if ThreeAlike(all) {
      StopKind(r, all);
    }
  }

  /** The outcome the loop reports for its inputs. */
  lemma OutcomeExactly(s: State, cfg: Config, script: seq<Input>, artifacts: bool)
    requires s.counters == NO_COUNTS && s.log == []
    ensures OutcomeIs(OutcomeOf(Loop(s, cfg, script).exit, artifacts), AllSent(cfg, script), script, artifacts)
  {
    LoopEndsExactly(s, cfg, script);
    OutcomeOfEnd(Loop(s, cfg, script), AllSent(cfg, script), script, artifacts);
  }
}
