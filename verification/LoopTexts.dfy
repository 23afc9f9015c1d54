/** What one iteration of the tool loop writes into the transcript and into its memory. */
module LoopTexts {
  import opened Text
  import opened Lists
  import opened Decimal
  import opened Messages
  import opened ContextWindow
  import opened ObservationMasking
  import opened ToolLoop
  import opened ToolLoopTranscript

  /** The text of a result as the model sees it: the compacted error unless the text already names the failed tool. */
  predicate IsResultText(o: Output, text: string) {
    if o.failure.Some? && !("pandas_tool failed" <= LowerAll(o.text) || "plotly_tool failed" <= LowerAll(o.text))
    then text == o.failure.value.message else text == o.text
  }

  /** The tool message of an output. */
  predicate IsResultOf(m: Message, o: Output) {
    m.Tool? && m.callId == o.callId && m.name == o.name && IsResultText(o, m.text)
  }

  /** The tool message of a call over the limit: it names the limit and the call. */
  predicate IsStubOf(m: Message, c: Call, limit: nat) {
    m.Tool? && m.callId == Strip(c.id) && m.name == Strip(c.name) &&
    m.text == "Tool call skipped: MAX_TOOLS_PER_CYCLE=" + NatText(limit) +
              ". Request this tool again in the next cycle if it is still needed."
  }

  predicate AreResults(ms: seq<Message>, outputs: seq<Output>) {
    |ms| == |outputs| && forall k :: 0 <= k < |ms| ==> IsResultOf(ms[k], outputs[k])
  }

  predicate AreStubs(ms: seq<Message>, skipped: seq<Call>, limit: nat) {
    |ms| == |skipped| && forall k :: 0 <= k < |ms| ==> IsStubOf(ms[k], skipped[k], limit)
  }

  /** The transcript before a masking pass: what trimming left, the answer, the processed results, the stubs. */
  ghost predicate IsWritten(ms: seq<Message>, base: seq<Message>, text: string, calls: seq<Call>, outputs: seq<Output>,
                            skipped: seq<Call>, limit: nat) {
    exists uid, results, stubs ::
      ms == base + [AI(uid, text, calls)] + (results + stubs) &&
      AreResults(results, outputs) && AreStubs(stubs, skipped, limit)
  }

  lemma ResultsAre(next: nat, outputs: seq<Output>)
    ensures AreResults(OutputMessages(next, outputs), outputs)
  {
    OutputMessagesAt(next, outputs);
    forall k | 0 <= k < |outputs|
      ensures IsResultOf(OutputMessages(next, outputs)[k], outputs[k])
    {
      assert OutputMessages(next, outputs)[k] == OutputMessage(next + k, outputs[k]);
    }
  }

  lemma StubsAre(next: nat, limit: nat, skipped: seq<Call>)
    ensures AreStubs(Stubs(next, limit, skipped), skipped, limit)
  {
    forall k | 0 <= k < |skipped|
      ensures IsStubOf(Stubs(next, limit, skipped)[k], skipped[k], limit)
    {
      assert Stubs(next, limit, skipped)[k] == Stub(next + k, limit, skipped[k]);
    }
  }

  // ----- memory -----

  predicate NotAmong(outputs: seq<Output>, id: string) {
    forall j :: 0 <= j < |outputs| ==> Strip(outputs[j].callId) != id
  }

  /** The k-th output is the last with its id. */
  predicate LastOf(outputs: seq<Output>, k: nat)
    requires k < |outputs|
  {
    NotAmong(outputs[k + 1..], Strip(outputs[k].callId))
  }

  predicate SameMemory(c: Context, d: Context, id: string) {
    (id in d.steps <==> id in c.steps) && (id in c.steps ==> d.steps[id] == c.steps[id]) &&
    (id in d.handles <==> id in c.handles) && (id in c.handles ==> d.handles[id] == c.handles[id])
  }

  /** What the memory holds of an output received at the step. */
  predicate Recalls(d: Context, o: Output, step: int) {
    var id := Strip(o.callId);
    id in d.steps && d.steps[id] == step && (o.handles != [] ==> id in d.handles && d.handles[id] == o.handles)
  }

  /** With a working memory the outputs come at consecutive steps; of each id the last output is recalled, and other ids
      are left alone. */
  ghost predicate Remembers(c: Context, d: Context, outputs: seq<Output>) {
    d.current == c.current + |outputs| &&
    (forall k :: 0 <= k < |outputs| && LastOf(outputs, k) ==> Recalls(d, outputs[k], c.current + k)) &&
    forall id :: NotAmong(outputs, id) ==> SameMemory(c, d, id)
  }

  lemma RecallMore(c: Context, o: Output, d: Context, rest: seq<Output>, k: nat)
    requires Remembers(Record(c, Strip(o.callId), o.handles), d, rest)
    requires k < |rest| + 1 && LastOf([o] + rest, k)
    ensures Recalls(d, ([o] + rest)[k], c.current + k)
  {
    var all := [o] + rest;
    if k > 0 {
      assert all[k + 1..] == rest[k..] && LastOf(rest, k - 1);
    } else {
      assert all[1..] == rest && NotAmong(rest, Strip(o.callId));
    }
  }

  lemma OthersMore(c: Context, o: Output, d: Context, rest: seq<Output>, id: string)
    requires Remembers(Record(c, Strip(o.callId), o.handles), d, rest) && NotAmong([o] + rest, id)
    ensures SameMemory(c, d, id)
  {
    var all := [o] + rest;
    assert all[0] == o;
    forall j | 0 <= j < |rest|
      ensures Strip(rest[j].callId) != id
    {
      assert Strip(all[j + 1].callId) != id;
    }
    assert NotAmong(rest, id) && SameMemory(Record(c, Strip(o.callId), o.handles), d, id);
  }

  lemma RememberMore(c: Context, o: Output, d: Context, rest: seq<Output>)
    requires Remembers(Record(c, Strip(o.callId), o.handles), d, rest)
    ensures Remembers(c, d, [o] + rest)
  {
    var all := [o] + rest;
    forall k | 0 <= k < |all| && LastOf(all, k)
      ensures Recalls(d, all[k], c.current + k)
    {
      RecallMore(c, o, d, rest, k);
    }
    forall id | NotAmong(all, id)
      ensures SameMemory(c, d, id)
    {
      OthersMore(c, o, d, rest, id);
    }
  }

  lemma RememberNothing(c: Context)
    ensures Remembers(c, c, [])
  {
  }

  /** What processing outputs with a working memory does to it. */
  ghost predicate MemoryAfter(s: State, t: Taken, outputs: seq<Output>) {
    t.left <= |outputs| && Remembers(s.ctx, t.state.ctx, outputs[..|outputs| - t.left]) &&
    t.state.toolCount == s.toolCount + (|outputs| - t.left) && t.state.masked == s.masked
  }

  /** The state after one output. */
  ghost predicate OneRemembered(s: State, t: State, o: Output) {
    t.ctx == Record(s.ctx, Strip(o.callId), o.handles) && t.toolCount == s.toolCount + 1 && t.masked == s.masked
  }

  lemma MemoryMore(s: State, t: State, u: Taken, outputs: seq<Output>)
    requires outputs != [] && OneRemembered(s, t, outputs[0]) && MemoryAfter(t, u, outputs[1..])
    ensures MemoryAfter(s, u, outputs)
  {
    var n := |outputs| - u.left;
    RememberMore(s.ctx, outputs[0], u.state.ctx, outputs[1..][..n - 1]);
    assert outputs[..n] == [outputs[0]] + outputs[1..][..n - 1];
  }

  lemma MemoryStops(s: State, t: State, stop: Stop, outputs: seq<Output>)
    requires outputs != [] && OneRemembered(s, t, outputs[0])
    ensures MemoryAfter(s, Taken(t, stop, |outputs| - 1), outputs)
  {
    RememberNothing(t.ctx);
    RememberMore(s.ctx, outputs[0], t.ctx, []);
    assert outputs[..1] == [outputs[0]] + [];
  }

  lemma {:induction false} TakeRemembers(s: State, outputs: seq<Output>, calls: seq<Call>)
    ensures MemoryAfter(s, TakeOutputs(s, true, outputs, calls), outputs)
    decreases |outputs|
  {
    if outputs == [] {
      RememberNothing(s.ctx);
    } else {
      var t := TakeOutput(s, true, outputs[0], calls);
      var stop := StopAfter(t.counters, Observe(outputs[0], calls));
      assert OneRemembered(s, t, outputs[0]);
      if stop == Running {
        TakeRemembers(t, outputs[1..], calls);
        MemoryMore(s, t, TakeOutputs(t, true, outputs[1..], calls), outputs);
      } else {
        MemoryStops(s, t, stop, outputs);
      }
    }
  }

  // ----- the iteration -----

  /** The masking pass runs. */
  predicate PassRuns(s: State, cfg: Config, n: int) {
    cfg.masking && cfg.memory && s.ctx.current + n >= 4 && s.toolCount + n >= 3
  }

  /** From the transcript ms before the pass: it is masked, with the memory as it is then, if the pass runs. */
  ghost predicate PassedFrom(r: Result, s: State, cfg: Config, ms: seq<Message>, n: int) {
    Pass(r.state.messages, r.state.masked) ==
    if r.exit == Continue && PassRuns(s, cfg, n) then MaskPass(ms, r.state.ctx, s.masked) else Pass(ms, s.masked)
  }

  /** What an iteration that processes n outputs leaves. */
  ghost predicate Writes(r: Result, s: State, cfg: Config, base: seq<Message>, text: string, calls: seq<Call>,
                         outputs: seq<Output>, n: int) {
    0 <= n <= |outputs| && (r.exit == Continue ==> n == |outputs|) &&
    (cfg.memory ==> Remembers(s.ctx, r.state.ctx, outputs[..n])) &&
    exists ms ::
      IsWritten(ms, base, text, calls, outputs[..n], Skipped(cfg, calls), MaxTools(cfg)) && PassedFrom(r, s, cfg, ms, n)
  }

  /** How many outputs the iteration processes. */
  function ProcessedIn(r: Result, outputs: seq<Output>): int {
    |outputs| - if r.exit.Stopped? then r.exit.left else 0
  }

  /** An iteration that runs its tools writes the trimmed transcript, the answer, the processed results in order and the
      stubs; with a working memory it recalls the results at their steps; the masking pass comes last, with the memory
      of this iteration, once four steps and three tool results are reached. */
  lemma CycleWrites(s: State, cfg: Config, i: Input)
    requires AsksForTools(i) && !i.cancelBeforeTools
    ensures var r := Cycle(s, cfg, i);
            Writes(r, s, cfg, Trimmed(s.messages, cfg.budget, cfg.env, i.lib), i.answer.text, i.answer.calls,
                   i.outputs, ProcessedIn(r, i.outputs))
  {
    var t := s.(messages := Trimmed(s.messages, cfg.budget, cfg.env, i.lib));
    var a := Asked(t, cfg, i.answer.text, i.answer.calls);
    ToolsWrite(t.messages, s.next, a, cfg, i.answer.text, i.answer.calls, i.outputs);
    SameStart(RunTools(a, cfg, i.answer.calls, i.outputs), s, a, cfg, t.messages, i);
  }

  lemma SameStart(r: Result, s: State, a: State, cfg: Config, base: seq<Message>, i: Input)
    requires i.answer.Answer? && s.ctx == a.ctx && s.toolCount == a.toolCount && s.masked == a.masked
    requires Writes(r, a, cfg, base, i.answer.text, i.answer.calls, i.outputs, ProcessedIn(r, i.outputs))
    ensures Writes(r, s, cfg, base, i.answer.text, i.answer.calls, i.outputs, ProcessedIn(r, i.outputs))
  {
    var n := ProcessedIn(r, i.outputs);
    var ms :| IsWritten(ms, base, i.answer.text, i.answer.calls, i.outputs[..n], Skipped(cfg, i.answer.calls),
                        MaxTools(cfg)) && PassedFrom(r, a, cfg, ms, n);
    assert PassedFrom(r, s, cfg, ms, n);
  }

  lemma ToolsWrite(base: seq<Message>, next: nat, a: State, cfg: Config, text: string, calls: seq<Call>,
                   outputs: seq<Output>)
    requires a.messages == base + [AI(next, text, calls)]
    ensures var r := RunTools(a, cfg, calls, outputs);
            Writes(r, a, cfg, base, text, calls, outputs, ProcessedIn(r, outputs))
  {
    var t := TakeOutputs(a, cfg.memory, outputs, Executable(cfg, calls));
    TakenMessages(a, cfg.memory, outputs, Executable(cfg, calls));
    if cfg.memory {
      TakeRemembers(a, outputs, Executable(cfg, calls));
    } else {
      TakeKeepsMasked(a, outputs, Executable(cfg, calls));
    }
    FinishWrites(base, next, a, t, cfg, text, calls, outputs);
  }

  lemma FinishWrites(base: seq<Message>, next: nat, a: State, t: Taken, cfg: Config, text: string, calls: seq<Call>,
                     outputs: seq<Output>)
    requires a.messages == base + [AI(next, text, calls)] && Processed(a, t, outputs) && t.state.masked == a.masked
    requires cfg.memory ==> MemoryAfter(a, t, outputs)
    ensures var r := Finish(t, cfg, Skipped(cfg, calls));
            Writes(r, a, cfg, base, text, calls, outputs, ProcessedIn(r, outputs))
  {
    var n, r := |outputs| - t.left, Finish(t, cfg, Skipped(cfg, calls));
    var u := WithStubs(t.state, MaxTools(cfg), Skipped(cfg, calls));
    StubbedWritten(base, next, a, t.state, cfg, text, calls, outputs, n);
    FinishPasses(a, t, cfg, calls, outputs);
    assert IsWritten(u.messages, base, text, calls, outputs[..n], Skipped(cfg, calls), MaxTools(cfg));
    assert PassedFrom(r, a, cfg, u.messages, n);
  }

  lemma StubbedWritten(base: seq<Message>, next: nat, a: State, t: State, cfg: Config, text: string, calls: seq<Call>,
                       outputs: seq<Output>, n: nat)
    requires a.messages == base + [AI(next, text, calls)] && Took(a, t, outputs, n)
    ensures IsWritten(WithStubs(t, MaxTools(cfg), Skipped(cfg, calls)).messages, base, text, calls, outputs[..n],
                      Skipped(cfg, calls), MaxTools(cfg))
  {
    StubbedMessages(a, cfg, calls, outputs, t, n);
    ResultsAre(a.next, outputs[..n]);
    StubsAre(a.next + n, MaxTools(cfg), Skipped(cfg, calls));
  }

  lemma FinishPasses(a: State, t: Taken, cfg: Config, calls: seq<Call>, outputs: seq<Output>)
    requires t.left <= |outputs| && (t.stop == Running ==> t.left == 0) && t.state.masked == a.masked
    requires cfg.memory ==> MemoryAfter(a, t, outputs)
    ensures var r, n := Finish(t, cfg, Skipped(cfg, calls)), |outputs| - t.left;
            var u := WithStubs(t.state, MaxTools(cfg), Skipped(cfg, calls));
            n == ProcessedIn(r, outputs) && r.state.ctx == t.state.ctx && PassedFrom(r, a, cfg, u.messages, n)
  {
  }

  lemma {:induction false} TakeKeepsMasked(s: State, outputs: seq<Output>, calls: seq<Call>)
    ensures TakeOutputs(s, false, outputs, calls).state.masked == s.masked
    decreases |outputs|
  {
    if outputs != [] {
      TakeKeepsMasked(TakeOutput(s, false, outputs[0], calls), outputs[1..], calls);
    }
  }

  /** An iteration that runs no tools: cancelled at its head it leaves the transcript alone, otherwise it leaves what
      trimming left, with the answer after it if its calls are cancelled; memory and masks stay. */
  lemma QuietCycle(s: State, cfg: Config, i: Input)
    requires !AsksForTools(i) || i.cancelBeforeTools
    ensures var r, base := Cycle(s, cfg, i).state, Trimmed(s.messages, cfg.budget, cfg.env, i.lib);
            r.ctx == s.ctx && r.masked == s.masked && r.counters == s.counters &&
            (if i.cancelHead then r.messages == s.messages
             else if !AsksForTools(i) then r.messages == base
             else IsWritten(r.messages, base, i.answer.text, i.answer.calls, [], [], 0))
  {
    if AsksForTools(i) {
      var base, ai := Trimmed(s.messages, cfg.budget, cfg.env, i.lib), [AI(s.next, i.answer.text, i.answer.calls)];
      assert AreResults([], []) && AreStubs([], [], 0);
      NilSeq(base + ai);
      NilSeq<Message>([]);
      assert Executable(cfg, i.answer.calls) != [];
      assert Cycle(s, cfg, i).state.messages == base + ai + ([] + []);
    }
  }
}
