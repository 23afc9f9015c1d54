/** The transcript over whole runs of the tool loop: tool-closed at the head of every cycle. */
module ToolLoopTranscript {
  import opened Options
  import opened Text
  import opened Lists
  import opened Messages
  import opened ToolGroups
  import opened ContextWindow
  import opened ObservationMasking
  import opened ToolLoop
  import opened ToolLoopStops

  function IdsOf(calls: seq<Call>): seq<string> {
    seq(|calls|, i requires 0 <= i < |calls| => Strip(calls[i].id))
  }

  function OutputIds(outputs: seq<Output>): seq<string> {
    seq(|outputs|, i requires 0 <= i < |outputs| => Strip(outputs[i].callId))
  }

  /** Identities of the transcript are distinct and below the supply. */
  predicate FreshSupply(ms: seq<Message>, next: nat) {
    DistinctUids(ms) && forall k :: 0 <= k < |ms| ==> ms[k].uid < next
  }

  predicate HeadOk(s: State) {
    ToolClosed(s.messages) && FreshSupply(s.messages, s.next)
  }

  /** Distinct, non-blank call ids, and a tool node that answers each executable call exactly once. */
  predicate AnsweredOnce(cfg: Config, calls: seq<Call>, outputs: seq<Output>) {
    NoDuplicates(IdsOf(calls)) && "" !in IdsOf(calls) &&
    NoDuplicates(OutputIds(outputs)) && IdSet(OutputIds(outputs)) == IdSet(IdsOf(Executable(cfg, calls)))
  }

  predicate WellPosed(s: State, cfg: Config, i: Input) {
    (i.lib.Some? ==> FreshSupply(i.lib.value, s.next)) &&
    (i.answer.Answer? ==> AnsweredOnce(cfg, i.answer.calls, i.outputs))
  }

  /** The environment behaves in every cycle that is reached. */
  predicate WellPosedRun(s: State, cfg: Config, script: seq<Input>)
    decreases |script|
  {
    script == [] ||
    (WellPosed(s, cfg, script[0]) &&
     (Cycle(s, cfg, script[0]).exit == Continue ==> WellPosedRun(Cycle(s, cfg, script[0]).state, cfg, script[1..])))
  }

  // ----- what a cycle appends -----

  function OutputMessages(next: nat, outputs: seq<Output>): seq<Message>
    decreases |outputs|
  {
    if outputs == [] then [] else [OutputMessage(next, outputs[0])] + OutputMessages(next + 1, outputs[1..])
  }

  lemma {:induction false} OutputMessagesAt(next: nat, outputs: seq<Output>)
    ensures var ms := OutputMessages(next, outputs);
            |ms| == |outputs| && forall k :: 0 <= k < |ms| ==> ms[k] == OutputMessage(next + k, outputs[k])
    decreases |outputs|
  {
    if outputs != [] {
      OutputMessagesAt(next + 1, outputs[1..]);
    }
  }

  /** t is the state s after processing the first n of the outputs. */
  predicate Took(s: State, t: State, outputs: seq<Output>, n: nat) {
    n <= |outputs| && t.messages == s.messages + OutputMessages(s.next, outputs[..n]) && t.next == s.next + n
  }

  lemma OutputMessagesCons(next: nat, o: Output, rest: seq<Output>)
    ensures OutputMessages(next, [o] + rest) == [OutputMessage(next, o)] + OutputMessages(next + 1, rest)
    ensures OutputMessages(next, [o]) == [OutputMessage(next, o)]
  {
    assert ([o] + rest)[1..] == rest && [o][1..] == [];
    assert OutputMessages(next + 1, []) == [];
    NilSeq([OutputMessage(next, o)]);
  }

  lemma TookMore(s: State, t: State, u: State, outputs: seq<Output>, n: nat)
    requires outputs != [] && Took(s, t, outputs, 1) && Took(t, u, outputs[1..], n)
    ensures Took(s, u, outputs, n + 1)
  {
    var rest := outputs[1..][..n];
    assert outputs[..n + 1] == [outputs[0]] + rest;
    assert outputs[..1] == [outputs[0]];
    OutputMessagesCons(s.next, outputs[0], rest);
    AssocSeq(s.messages, [OutputMessage(s.next, outputs[0])], OutputMessages(s.next + 1, rest));
  }

  lemma TookOne(s: State, memory: bool, outputs: seq<Output>, calls: seq<Call>)
    requires outputs != []
    ensures Took(s, TakeOutput(s, memory, outputs[0], calls), outputs, 1)
  {
    assert outputs[..1] == [outputs[0]];
    OutputMessagesCons(s.next, outputs[0], []);
  }

  /** t comes from processing the outputs in state s. */
  predicate Processed(s: State, t: Taken, outputs: seq<Output>) {
    t.left <= |outputs| && (t.stop == Running ==> t.left == 0) && Took(s, t.state, outputs, |outputs| - t.left)
  }

  lemma ProcessedMore(s: State, t: State, u: Taken, outputs: seq<Output>)
    requires outputs != [] && Took(s, t, outputs, 1) && Processed(t, u, outputs[1..])
    ensures Processed(s, u, outputs)
  {
    TookMore(s, t, u.state, outputs, |outputs[1..]| - u.left);
  }

  lemma {:induction false} TakenMessages(s: State, memory: bool, outputs: seq<Output>, calls: seq<Call>)
    ensures Processed(s, TakeOutputs(s, memory, outputs, calls), outputs)
    decreases |outputs|
  {
    if outputs == [] {
      NilSeq(s.messages);
    } else {
      var t := TakeOutput(s, memory, outputs[0], calls);
      TookOne(s, memory, outputs, calls);
      if StopAfter(t.counters, Observe(outputs[0], calls)) == Running {
        TakenMessages(t, memory, outputs[1..], calls);
        ProcessedMore(s, t, TakeOutputs(t, memory, outputs[1..], calls), outputs);
      }
    }
  }

  /** Messages appended at the supply keep it fresh. */
  lemma SupplyGrows(ms: seq<Message>, next: nat, more: seq<Message>)
    requires FreshSupply(ms, next) && forall k :: 0 <= k < |more| ==> more[k].uid == next + k
    ensures FreshSupply(ms + more, next + |more|)
  {
    var all := ms + more;
    forall i, j | 0 <= i < j < |all|
      ensures all[i].uid != all[j].uid
    {
      if i >= |ms| {
        assert all[i] == more[i - |ms|] && all[j] == more[j - |ms|];
      } else if j >= |ms| {
        assert all[j] == more[j - |ms|] && all[i] == ms[i];
      }
    }
  }

  // ----- when an AI message and its results close -----

  lemma {:induction false} ClosedWithGroup(ms: seq<Message>, m: Message, run: seq<Message>)
    requires ToolClosed(ms) && m.AI? && CallIds(m) != [] && AllTools(run)
    ensures ToolClosed(ms + ([m] + run)) <==> AnswersExactly(run, CallIds(m))
    decreases |ms|
  {
    var g := [m] + run;
    if ms == [] {
      NilSeq(g);
      ClosedGroup(m, run);
    } else {
      var all := ms + g;
      assert all[0] == ms[0] && all[1..] == ms[1..] + g;
      if Plain(ms[0]) {
        ClosedWithGroup(ms[1..], m, run);
      } else {
        ResultsAppend(ms, g);
        ClosedWithGroup(AfterResults(ms), m, run);
        assert ToolClosed(all) == ToolClosed(AfterResults(all));
      }
    }
  }

  lemma {:induction false} CallIdsAre(calls: seq<Call>)
    requires "" !in IdsOf(calls)
    ensures NonBlank(calls) == IdsOf(calls)
  {
    if calls != [] {
      var rest := calls[1..];
      assert IdsOf(calls)[0] == Strip(calls[0].id);
      assert IdsOf(calls) == [Strip(calls[0].id)] + IdsOf(rest);
      CallIdsAre(rest);
    }
  }

  lemma {:induction false} StripTwice(calls: seq<Call>, limit: nat, next: nat)
    ensures ResultIds(Stubs(next, limit, calls)) == IdsOf(calls)
  {
    var r := ResultIds(Stubs(next, limit, calls));
    forall i | 0 <= i < |calls|
      ensures r[i] == IdsOf(calls)[i]
    {
      StripIdempotent(calls[i].id);
    }
  }

  lemma SkippedApart(ex: seq<string>, sk: seq<string>, outs: seq<string>)
    requires NoDuplicates(ex + sk) && IdSet(outs) == IdSet(ex)
    ensures NoDuplicates(sk) && forall i, j :: 0 <= i < |outs| && 0 <= j < |sk| ==> outs[i] != sk[j]
  {
    forall i, j | 0 <= i < j < |sk|
      ensures sk[i] != sk[j]
    {
      assert (ex + sk)[|ex| + i] == sk[i] && (ex + sk)[|ex| + j] == sk[j];
    }
    forall i, j | 0 <= i < |outs| && 0 <= j < |sk|
      ensures outs[i] != sk[j]
    {
      assert outs[i] in IdSet(ex);
      var k :| 0 <= k < |ex| && ex[k] == outs[i];
      assert (ex + sk)[k] == ex[k] && (ex + sk)[|ex| + j] == sk[j];
    }
  }

  /** Some of the executable ids and all the skipped ids answer all the calls exactly when no executable id is
      missing. */
  lemma AnsweredWhenComplete(ex: seq<string>, sk: seq<string>, outs: seq<string>, n: nat)
    requires NoDuplicates(ex + sk) && NoDuplicates(outs) && IdSet(outs) == IdSet(ex) && n <= |outs|
    ensures NoDuplicates(outs[..n] + sk)
    ensures IdSet(outs[..n] + sk) == IdSet(ex + sk) <==> n == |outs|
  {
    var got := outs[..n] + sk;
    SkippedApart(ex, sk, outs);
    forall i, j | 0 <= i < j < |got|
      ensures got[i] != got[j]
    {
      SplitIndex(outs[..n], sk, i);
      SplitIndex(outs[..n], sk, j);
    }
    SetOfSum(ex, sk);
    SetOfSum(outs[..n], sk);
    if n == |outs| {
      assert outs[..n] == outs;
    } else {
      var x := outs[n];
      assert x in IdSet(outs);
      forall k | 0 <= k < |got|
        ensures got[k] != x
      {
        SplitIndex(outs[..n], sk, k);
      }
      assert x in IdSet(ex + sk) && x !in IdSet(got);
    }
  }

  lemma SetOfSum(a: seq<string>, b: seq<string>)
    ensures IdSet(a + b) == IdSet(a) + IdSet(b)
  {
    assert forall x :: x in a + b <==> x in a || x in b;
  }

  lemma SplitIndex(a: seq<string>, b: seq<string>, i: nat)
    requires i < |a| + |b|
    ensures (a + b)[i] == if i < |a| then a[i] else b[i - |a|]
  {
  }

  lemma IdsSplit(cfg: Config, calls: seq<Call>)
    ensures IdsOf(calls) == IdsOf(Executable(cfg, calls)) + IdsOf(Skipped(cfg, calls))
    ensures Executable(cfg, calls) + Skipped(cfg, calls) == calls
  {
  }

  /** A prefix of the outputs and the skipped-call stubs. */
  function ResultRun(next: nat, cfg: Config, calls: seq<Call>, outputs: seq<Output>, n: nat): seq<Message>
    requires n <= |outputs|
  {
    OutputMessages(next, outputs[..n]) + Stubs(next + n, MaxTools(cfg), Skipped(cfg, calls))
  }

  lemma IdsAppend(a: seq<Message>, b: seq<Message>)
    ensures ResultIds(a + b) == ResultIds(a) + ResultIds(b)
  {
  }

  lemma RunIds(next: nat, cfg: Config, calls: seq<Call>, outputs: seq<Output>, n: nat)
    requires n <= |outputs|
    ensures ResultIds(ResultRun(next, cfg, calls, outputs, n)) == OutputIds(outputs)[..n] + IdsOf(Skipped(cfg, calls))
  {
    StripTwice(Skipped(cfg, calls), MaxTools(cfg), next + n);
    OutputMessagesAt(next, outputs[..n]);
    assert ResultIds(OutputMessages(next, outputs[..n])) == OutputIds(outputs)[..n];
    IdsAppend(OutputMessages(next, outputs[..n]), Stubs(next + n, MaxTools(cfg), Skipped(cfg, calls)));
  }

  lemma RunShape(next: nat, cfg: Config, calls: seq<Call>, outputs: seq<Output>, n: nat)
    requires n <= |outputs|
    ensures var run := ResultRun(next, cfg, calls, outputs, n);
            AllTools(run) && (forall k :: 0 <= k < |run| ==> run[k].uid == next + k) &&
            |run| == n + |Skipped(cfg, calls)|
  {
    OutputMessagesAt(next, outputs[..n]);
  }

  lemma RunAnswers(next: nat, cfg: Config, calls: seq<Call>, outputs: seq<Output>, n: nat)
    requires AnsweredOnce(cfg, calls, outputs) && n <= |outputs|
    ensures AnswersExactly(ResultRun(next, cfg, calls, outputs, n), NonBlank(calls)) <==> n == |outputs|
  {
    IdsSplit(cfg, calls);
    CallIdsAre(calls);
    RunIds(next, cfg, calls, outputs, n);
    AnsweredWhenComplete(IdsOf(Executable(cfg, calls)), IdsOf(Skipped(cfg, calls)), OutputIds(outputs), n);
  }

  // ----- one cycle -----

  lemma MaskKeepsHead(s: State, cfg: Config)
    requires HeadOk(s)
    ensures HeadOk(Masked(s, cfg)) && Masked(s, cfg).log == s.log
  {
    var p := MaskPass(s.messages, s.ctx, s.masked);
    PassKeepsShape(s.messages, s.ctx, s.masked);
    ShapeKeepsClosed(s.messages, p.messages);
    ShapeKeepsUids(s.messages, p.messages);
    forall k | 0 <= k < |p.messages|
      ensures p.messages[k].uid < s.next
    {
      assert SameSlot(s.messages[k], p.messages[k]);
    }
  }

  lemma TrimKeepsHead(s: State, cfg: Config, lib: Option<seq<Message>>)
    requires HeadOk(s) && (lib.Some? ==> FreshSupply(lib.value, s.next))
    ensures HeadOk(s.(messages := Trimmed(s.messages, cfg.budget, cfg.env, lib)))
  {
    TrimKeepsClosed(s.messages, cfg.budget, cfg.env, lib);
    TrimKeepsSupply(s.messages, s.next, cfg.budget, cfg.env, lib);
  }

  lemma SubKeepsSupply(a: seq<Message>, b: seq<Message>, next: nat)
    requires IsSub(a, b) && FreshSupply(b, next)
    ensures FreshSupply(a, next)
  {
    SubDistinct(a, b);
    SubMembers(a, b);
    forall k | 0 <= k < |a|
      ensures a[k].uid < next
    {
      assert a[k] in b;
    }
  }

  lemma ShapeKeepsSupply(a: seq<Message>, b: seq<Message>, next: nat)
    requires SameShape(a, b) && FreshSupply(a, next)
    ensures FreshSupply(b, next)
  {
    ShapeKeepsUids(a, b);
    forall k | 0 <= k < |b|
      ensures b[k].uid < next
    {
      assert SameSlot(a[k], b[k]);
    }
  }

  /** Whatever trimming returns consists of messages of the transcript or of the library's result, possibly
      compacted. */
  lemma TrimKeepsSupply(ms: seq<Message>, next: nat, budget: int, env: Env, lib: Option<seq<Message>>)
    requires FreshSupply(ms, next) && (lib.Some? ==> FreshSupply(lib.value, next))
    ensures FreshSupply(Trimmed(ms, budget, env, lib), next)
  {
    if budget > 0 && lib.Some? {
      GroupFilterTheorem(lib.value);
      SubKeepsSupply(Dropped(lib.value), lib.value, next);
      HumanIndex(ms);
      if LatestHumanIndex(ms) >= 0 {
        TrimCases(ms, budget, env, lib.value);
        FitOutcomes(ms, budget, env);
        FallbacksKeepSupply(ms, next, budget, env);
      }
    }
  }

  lemma FallbacksKeepSupply(ms: seq<Message>, next: nat, budget: int, env: Env)
    requires FreshSupply(ms, next) && LatestHumanIndex(ms) >= 0
    ensures FreshSupply(Minimal(ms, budget, env), next) && FreshSupply(Base(ms), next)
    ensures var c := Compacted(Base(ms), env); FreshSupply(c, next) && (c != [] ==> FreshSupply(c[1..], next))
  {
    var base := Base(ms);
    BaseFacts(ms);
    SubKeepsSupply(base, ms, next);
    CompactedShape(base, env);
    ShapeKeepsSupply(base, Compacted(base, env), next);
    TailKeepsSupply(Compacted(base, env), next);
  }

  lemma TailKeepsSupply(ms: seq<Message>, next: nat)
    requires FreshSupply(ms, next)
    ensures ms != [] ==> FreshSupply(ms[1..], next)
  {
    if ms != [] {
      HeadNotInTail(ms);
    }
  }

  /** The transcript once an answer, n of its outputs and the stubs are appended. */
  lemma AppendedCloses(ms: seq<Message>, next: nat, cfg: Config, text: string, calls: seq<Call>, outputs: seq<Output>,
      n: nat)
    requires ToolClosed(ms) && FreshSupply(ms, next) && calls != [] && AnsweredOnce(cfg, calls, outputs) &&
             n <= |outputs|
    ensures var run := ResultRun(next + 1, cfg, calls, outputs, n);
            var all := ms + [AI(next, text, calls)] + run;
            FreshSupply(all, next + 1 + |run|) && (ToolClosed(all) <==> n == |outputs|)
  {
    var m, run := AI(next, text, calls), ResultRun(next + 1, cfg, calls, outputs, n);
    RunAnswers(next + 1, cfg, calls, outputs, n);
    RunShape(next + 1, cfg, calls, outputs, n);
    CallIdsAre(calls);
    ClosedWithGroup(ms, m, run);
    AssocSeq(ms, [m], run);
    SupplyGrows(ms, next, [m]);
    SupplyGrows(ms + [m], next + 1, run);
  }

  lemma StubbedMessages(a: State, cfg: Config, calls: seq<Call>, outputs: seq<Output>, t: State, n: nat)
    requires Took(a, t, outputs, n)
    ensures var u, run := WithStubs(t, MaxTools(cfg), Skipped(cfg, calls)), ResultRun(a.next, cfg, calls, outputs, n);
            u.messages == a.messages + run && u.next == a.next + |run|
  {
    RunShape(a.next, cfg, calls, outputs, n);
    AssocSeq(a.messages, OutputMessages(a.next, outputs[..n]), Stubs(a.next + n, MaxTools(cfg), Skipped(cfg, calls)));
  }

  lemma FinishCloses(s: State, cfg: Config, text: string, calls: seq<Call>, outputs: seq<Output>, t: Taken)
    requires HeadOk(s) && calls != [] && AnsweredOnce(cfg, calls, outputs)
    requires Processed(Asked(s, cfg, text, calls), t, outputs)
    ensures var r := Finish(t, cfg, Skipped(cfg, calls));
            (r.exit == Continue ==> HeadOk(r.state)) && (r.exit == Continue || r.exit.Stopped?) &&
            (ToolClosed(r.state.messages) <==> t.left == 0)
  {
    StubbedCloses(s, cfg, text, calls, outputs, t.state, |outputs| - t.left);
    if t.stop == Running {
      MaskKeepsHead(WithStubs(t.state, MaxTools(cfg), Skipped(cfg, calls)), cfg);
    }
  }

  lemma StubbedCloses(s: State, cfg: Config, text: string, calls: seq<Call>, outputs: seq<Output>, t: State, n: nat)
    requires HeadOk(s) && calls != [] && AnsweredOnce(cfg, calls, outputs)
    requires Took(Asked(s, cfg, text, calls), t, outputs, n)
    ensures var u := WithStubs(t, MaxTools(cfg), Skipped(cfg, calls));
            (ToolClosed(u.messages) <==> n == |outputs|) && (n == |outputs| ==> HeadOk(u))
  {
    AppendedCloses(s.messages, s.next, cfg, text, calls, outputs, n);
    StubbedMessages(Asked(s, cfg, text, calls), cfg, calls, outputs, t, n);
  }

  /** The counterpart of the early stop: the transcript after running the tools is tool-closed exactly when no output
      but the last one is the third with its key. */
  lemma {:induction false} ToolsClose(s: State, cfg: Config, text: string, calls: seq<Call>, outputs: seq<Output>)
    requires HeadOk(s) && calls != [] && AnsweredOnce(cfg, calls, outputs)
    ensures var r := RunTools(Asked(s, cfg, text, calls), cfg, calls, outputs);
            (r.exit == Continue ==> HeadOk(r.state)) && (r.exit == Continue || r.exit.Stopped?) &&
            (ToolClosed(r.state.messages) <==> !RepeatsEarly(s.counters, outputs, Executable(cfg, calls)))
  {
    var a := Asked(s, cfg, text, calls);
    ToolsLeave(s, cfg, text, calls, outputs);
    StopsOnThird(a, cfg.memory, outputs, Executable(cfg, calls));
    assert a.counters == s.counters;
  }

  lemma ToolsLeave(s: State, cfg: Config, text: string, calls: seq<Call>, outputs: seq<Output>)
    requires HeadOk(s) && calls != [] && AnsweredOnce(cfg, calls, outputs)
    ensures var a := Asked(s, cfg, text, calls);
            var r, t := RunTools(a, cfg, calls, outputs), TakeOutputs(a, cfg.memory, outputs, Executable(cfg, calls));
            (r.exit == Continue ==> HeadOk(r.state)) && (r.exit == Continue || r.exit.Stopped?) &&
            (ToolClosed(r.state.messages) <==> t.left == 0)
  {
    var a, ex := Asked(s, cfg, text, calls), Executable(cfg, calls);
    var t := TakeOutputs(a, cfg.memory, outputs, ex);
    assert RunTools(a, cfg, calls, outputs) == Finish(t, cfg, Skipped(cfg, calls));
    TakenMessages(a, cfg.memory, outputs, ex);
    FinishCloses(s, cfg, text, calls, outputs, t);
  }

  lemma AskedIsOpen(s: State, cfg: Config, text: string, calls: seq<Call>)
    requires HeadOk(s) && calls != [] && "" !in IdsOf(calls)
    ensures !ToolClosed(Asked(s, cfg, text, calls).messages)
  {
    var m := AI(s.next, text, calls);
    CallIdsAre(calls);
    ClosedWithGroup(s.messages, m, []);
    NilSeq([m]);
    assert IdsOf(calls)[0] in IdSet(IdsOf(calls));
  }

  /** The model's answer asks for tools, and no cancellation comes before it is appended. */
  predicate AsksForTools(i: Input) {
    !i.cancelHead && i.answer.Answer? && !i.cancelAfterAnswer && i.answer.calls != []
  }

  /** The cycle leaves calls unanswered: it is cancelled between the model's answer and its tools, or an output before
      the last one is the third with its key. */
  predicate CycleBreaks(c: Counters, cfg: Config, i: Input) {
    AsksForTools(i) && (i.cancelBeforeTools || RepeatsEarly(c, i.outputs, Executable(cfg, i.answer.calls)))
  }

  lemma CycleTranscript(s: State, cfg: Config, i: Input)
    requires HeadOk(s) && WellPosed(s, cfg, i)
    ensures var r := Cycle(s, cfg, i);
            (r.exit == Continue ==> HeadOk(r.state)) &&
            (ToolClosed(r.state.messages) <==> !CycleBreaks(s.counters, cfg, i))
  {
    if !i.cancelHead {
      TrimKeepsHead(s, cfg, i.lib);
      var t := s.(messages := Trimmed(s.messages, cfg.budget, cfg.env, i.lib));
      if i.answer.Answer? && i.answer.calls != [] {
        AskedIsOpen(t, cfg, i.answer.text, i.answer.calls);
        ToolsClose(t, cfg, i.answer.text, i.answer.calls, i.outputs);
      }
    }
  }

  /** The loop goes on exactly after a cycle that runs its tools and repeats nothing for the third time. */
  lemma CycleContinues(s: State, cfg: Config, i: Input)
    ensures var r := Cycle(s, cfg, i);
            (r.exit == Continue <==>
             AsksForTools(i) && !i.cancelBeforeTools &&
             !Repeats(s.counters, i.outputs, Executable(cfg, i.answer.calls))) &&
            (r.exit == Continue ==>
               r.state.counters == CountAll(s.counters, i.outputs, Executable(cfg, i.answer.calls)))
  {
    if AsksForTools(i) && !i.cancelBeforeTools {
      var t := s.(messages := Trimmed(s.messages, cfg.budget, cfg.env, i.lib));
      var calls := i.answer.calls;
      StopsOnThird(Asked(t, cfg, i.answer.text, calls), cfg.memory, i.outputs, Executable(cfg, calls));
    }
  }

  /** The transcript is tool-closed at the head of this cycle and of every later one the loop reaches. */
  predicate EveryHeadOk(s: State, cfg: Config, script: seq<Input>)
    decreases |script|
  {
    HeadOk(s) &&
    (script != [] && Cycle(s, cfg, script[0]).exit == Continue ==>
      EveryHeadOk(Cycle(s, cfg, script[0]).state, cfg, script[1..]))
  }

  /** Over any run in which call ids are distinct and non-blank and the tool node answers each executable call once,
      the transcript is tool-closed at the head of every cycle. */
  lemma {:induction false} TranscriptInvariant(s: State, cfg: Config, script: seq<Input>)
    requires HeadOk(s) && WellPosedRun(s, cfg, script)
    ensures EveryHeadOk(s, cfg, script)
    decreases |script|
  {
    if script != [] {
      CycleTranscript(s, cfg, script[0]);
      var r := Cycle(s, cfg, script[0]);
      if r.exit == Continue {
        TranscriptInvariant(r.state, cfg, script[1..]);
      }
    }
  }

  /** The script leads the loop, from these counters, to a cycle that leaves calls unanswered. */
  predicate LoopBreaks(c: Counters, cfg: Config, script: seq<Input>)
    decreases |script|
  {
    script != [] && AsksForTools(script[0]) &&
    var i, ex := script[0], Executable(cfg, script[0].answer.calls);
    CycleBreaks(c, cfg, i) || (!Repeats(c, i.outputs, ex) && LoopBreaks(CountAll(c, i.outputs, ex), cfg, script[1..]))
  }

  /** The transcript the loop hands back is tool-closed exactly when its inputs lead to no cycle that leaves calls
      unanswered. */
  lemma {:induction false} FinalTranscript(s: State, cfg: Config, script: seq<Input>)
    requires HeadOk(s) && WellPosedRun(s, cfg, script)
    ensures ToolClosed(Loop(s, cfg, script).state.messages) <==> !LoopBreaks(s.counters, cfg, script)
    decreases |script|
  {
    if script != [] {
      var r := Cycle(s, cfg, script[0]);
      CycleTranscript(s, cfg, script[0]);
      CycleContinues(s, cfg, script[0]);
      if r.exit == Continue {
        FinalTranscript(r.state, cfg, script[1..]);
      }
    }
  }

  // ----- an input that leaves the transcript open -----

  /** Four calls of one tool with the same arguments, each answered with the same text. */
  const FOUR_CALLS := [Call("a", "t", ""), Call("b", "t", ""), Call("c", "t", ""), Call("d", "t", "")]

  const FOUR_OUTPUTS := [Output("t", "a", "x", None, []), Output("t", "b", "x", None, []),
                         Output("t", "c", "x", None, []), Output("t", "d", "x", None, [])]

  const FOUR_TIMES := Input(false, None, Answer("", FOUR_CALLS), false, false, FOUR_OUTPUTS)

  lemma FourIds()
    ensures IdsOf(FOUR_CALLS) == ["a", "b", "c", "d"] == OutputIds(FOUR_OUTPUTS) && Strip("t") == "t"
  {
  }

  /** From every tool-closed state the third of the four equal results stops the loop, and the fourth call is left
      without its result. */
  lemma FourEqualResultsLeaveOpen(s: State, cfg: Config)
    requires HeadOk(s) && cfg.maxTools >= 4
    ensures WellPosedRun(s, cfg, [FOUR_TIMES]) && !ToolClosed(Loop(s, cfg, [FOUR_TIMES]).state.messages)
  {
    FourIds();
    var script := [FOUR_TIMES];
    assert script[1..] == [];
    assert Executable(cfg, FOUR_CALLS) == FOUR_CALLS;
    assert WellPosedRun(s, cfg, script);
    FourRepeat(s.counters);
    FinalTranscript(s, cfg, script);
  }

  lemma FourRepeat(c: Counters)
    ensures RepeatsEarly(c, FOUR_OUTPUTS, FOUR_CALLS)
  {
    FourIds();
    var ob := Succeeded(SuccessKey("t", "", Collapse("x")));
    forall k | 0 <= k < 3
      ensures Observe(FOUR_OUTPUTS[k], FOUR_CALLS) == ob
    {
      FoundCall(FOUR_CALLS, Strip(FOUR_OUTPUTS[k].callId));
    }
    var three := FOUR_OUTPUTS[..3];
    var two := three[1..];
    var one := two[1..];
    assert three[0] == FOUR_OUTPUTS[0] && two[0] == FOUR_OUTPUTS[1] && one[0] == FOUR_OUTPUTS[2] && one[1..] == [];
    assert Occurrences(one, FOUR_CALLS, ob) == 1;
    assert Occurrences(two, FOUR_CALLS, ob) == 2;
    assert Occurrences(three, FOUR_CALLS, ob) == 3;
    assert Third(c, FOUR_OUTPUTS, FOUR_CALLS, 2);
  }

  // ----- such runs leave no output unclaimed -----

  lemma {:induction false} FoundCall(calls: seq<Call>, id: string)
    requires id in IdsOf(calls)
    ensures FindCall(calls, id).Some? && FindCall(calls, id).value in calls && Strip(FindCall(calls, id).value.id) == id
  {
    var init := calls[..|calls| - 1];
    if Strip(calls[|calls| - 1].id) != id {
      var k :| 0 <= k < |calls| && IdsOf(calls)[k] == id;
      assert IdsOf(init)[k] == id;
      FoundCall(init, id);
    }
  }

  lemma {:induction false} TakenClaimed(s: State, memory: bool, outputs: seq<Output>, calls: seq<Call>)
    requires Unclaimed !in s.log && forall k :: 0 <= k < |outputs| ==> Strip(outputs[k].callId) in IdsOf(calls)
    ensures Unclaimed !in TakeOutputs(s, memory, outputs, calls).state.log
    decreases |outputs|
  {
    if outputs != [] {
      FoundCall(calls, Strip(outputs[0].callId));
      TakenClaimed(TakeOutput(s, memory, outputs[0], calls), memory, outputs[1..], calls);
    }
  }

  lemma {:induction false} EveryOutputClaimed(s: State, cfg: Config, script: seq<Input>)
    requires WellPosedRun(s, cfg, script) && Unclaimed !in s.log
    ensures Unclaimed !in Loop(s, cfg, script).state.log
    decreases |script|
  {
    if script != [] {
      var i := script[0];
      var r := Cycle(s, cfg, i);
      if i.answer.Answer? {
        var t := s.(messages := Trimmed(s.messages, cfg.budget, cfg.env, i.lib));
        var ex := Executable(cfg, i.answer.calls);
        forall k | 0 <= k < |i.outputs|
          ensures Strip(i.outputs[k].callId) in IdsOf(ex)
        {
          assert OutputIds(i.outputs)[k] in IdSet(OutputIds(i.outputs));
        }
        TakenClaimed(Asked(t, cfg, i.answer.text, i.answer.calls), cfg.memory, i.outputs, ex);
      }
      if r.exit == Continue {
        EveryOutputClaimed(r.state, cfg, script[1..]);
      }
    }
  }
}
