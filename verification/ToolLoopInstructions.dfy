/** Planner and instruction results inside the tool loop: neither trimming nor masking touches their text. */
module ToolLoopInstructions {
  import opened Options
  import opened Text
  import opened Messages
  import opened ToolGroups
  import opened ContextWindow
  import opened ObservationMasking
  import opened ToolLoop

  /** A tool message under an id of `full` is a planner or instruction result with the text given there. */
  predicate Whole(m: Message, full: map<string, string>) {
    m.Tool? && m.callId in full ==> Exempt(m.name) && m.text == full[m.callId]
  }

  predicate AllWhole(ms: seq<Message>, full: map<string, string>) {
    forall i :: 0 <= i < |ms| ==> Whole(ms[i], full)
  }

  /** The transcript holds the results of `full` word for word and none of them is masked. */
  predicate Spared(s: State, full: map<string, string>) {
    AllWhole(s.messages, full) && forall id :: id in s.masked ==> id !in full
  }

  /** The outputs and stubs of one iteration use the ids of `full` for those results only. */
  predicate InputSpares(cfg: Config, i: Input, full: map<string, string>) {
    (forall k :: 0 <= k < |i.outputs| ==> Whole(OutputMessage(0, i.outputs[k]), full)) &&
    (i.answer.Answer? ==>
       var skipped := Skipped(cfg, i.answer.calls);
       forall k :: 0 <= k < |skipped| ==> Strip(skipped[k].id) !in full)
  }

  predicate ScriptSpares(cfg: Config, script: seq<Input>, full: map<string, string>) {
    forall k :: 0 <= k < |script| ==> InputSpares(cfg, script[k], full)
  }

  predicate Picks(lib: Option<seq<Message>>, ms: seq<Message>) {
    lib.Some? ==> forall i :: 0 <= i < |lib.value| ==> lib.value[i] in ms
  }

  /** In every iteration reached, the library picks its list from the transcript it is given. */
  predicate LibraryPicks(s: State, cfg: Config, script: seq<Input>)
    decreases |script|
  {
    script == [] ||
    (Picks(script[0].lib, s.messages) &&
     (Cycle(s, cfg, script[0]).exit == Continue ==> LibraryPicks(Cycle(s, cfg, script[0]).state, cfg, script[1..])))
  }

  lemma MembersWhole(a: seq<Message>, b: seq<Message>, full: map<string, string>)
    requires AllWhole(b, full) && forall i :: 0 <= i < |a| ==> a[i] in b
    ensures AllWhole(a, full)
  {
  }

  lemma SubWhole(a: seq<Message>, b: seq<Message>, full: map<string, string>)
    requires IsSub(a, b) && AllWhole(b, full)
    ensures AllWhole(a, full)
  {
    SubMembers(a, b);
    MembersWhole(a, b, full);
  }

  // ----- trimming -----

  lemma {:induction false} FilterWhole(ms: seq<Message>, valid: set<nat>, full: map<string, string>)
    requires AllWhole(ms, full)
    ensures AllWhole(Filter(ms, valid), full)
  {
    if ms != [] {
      FilterWhole(ms[1..], valid, full);
    }
  }

  lemma CompactedWhole(ms: seq<Message>, env: Env, full: map<string, string>)
    requires AllWhole(ms, full)
    ensures AllWhole(Compacted(ms, env), full)
  {
    var c := Compacted(ms, env);
    forall i | 0 <= i < |c|
      ensures Whole(c[i], full)
    {
      assert Whole(ms[i], full);
    }
  }

  lemma MinimalWhole(ms: seq<Message>, budget: int, env: Env, full: map<string, string>)
    requires AllWhole(ms, full)
    ensures AllWhole(Minimal(ms, budget, env), full)
  {
    MembersWhole(Minimal(ms, budget, env), ms, full);
  }

  lemma FitWhole(ms: seq<Message>, budget: int, env: Env, full: map<string, string>)
    requires AllWhole(ms, full) && LatestHumanIndex(ms) >= 0
    ensures AllWhole(Fit(Base(ms), ms, budget, env), full)
  {
    var cs := Candidates(Base(ms), env);
    MinimalWhole(ms, budget, env, full);
    if FirstFitting(cs, budget, env).Some? {
      var k := FirstFittingIs(cs, budget, env);
      BaseIsSub(ms);
      SubWhole(Base(ms), ms, full);
      CompactedWhole(Base(ms), env, full);
      assert AllWhole(cs[k], full);
      FilterWhole(cs[k], Uids(Flat(CompleteGroups(cs[k]))), full);
    }
  }

  lemma TrimmedWhole(ms: seq<Message>, budget: int, env: Env, lib: Option<seq<Message>>, full: map<string, string>)
    requires AllWhole(ms, full) && Picks(lib, ms)
    ensures AllWhole(Trimmed(ms, budget, env, lib), full)
  {
    if lib.Some? {
      MembersWhole(lib.value, ms, full);
      FilterWhole(lib.value, Uids(Flat(CompleteGroups(lib.value))), full);
      MinimalWhole(ms, budget, env, full);
      if LatestHumanIndex(ms) >= 0 {
        FitWhole(ms, budget, env, full);
      }
    }
  }

  // ----- one cycle -----

  lemma {:induction false} PassSpares(ms: seq<Message>, c: Context, masked: set<string>, full: map<string, string>)
    requires AllWhole(ms, full) && forall id :: id in masked ==> id !in full
    ensures var r := MaskPass(ms, c, masked);
            AllWhole(r.messages, full) && forall id :: id in r.masked ==> id !in full
    decreases |ms|
  {
    if ms != [] {
      assert Whole(ms[0], full);
      PassSpares(ms[1..], c, if Maskable(ms[0], c, masked) then masked + {ms[0].callId} else masked, full);
    }
  }

  lemma {:induction false} TakeSpares(s: State, memory: bool, outputs: seq<Output>, calls: seq<Call>,
                                      full: map<string, string>)
    requires Spared(s, full)
    requires forall k :: 0 <= k < |outputs| ==> Whole(OutputMessage(0, outputs[k]), full)
    ensures Spared(TakeOutputs(s, memory, outputs, calls).state, full)
    decreases |outputs|
  {
    if outputs != [] {
      assert Whole(OutputMessage(0, outputs[0]), full);
      TakeSpares(TakeOutput(s, memory, outputs[0], calls), memory, outputs[1..], calls, full);
    }
  }

  lemma FinishSpares(t: Taken, cfg: Config, skipped: seq<Call>, full: map<string, string>)
    requires Spared(t.state, full) && forall k :: 0 <= k < |skipped| ==> Strip(skipped[k].id) !in full
    ensures Spared(Finish(t, cfg, skipped).state, full)
  {
    var u := WithStubs(t.state, MaxTools(cfg), skipped);
    assert AllWhole(Stubs(t.state.next, MaxTools(cfg), skipped), full);
    assert Spared(u, full);
    PassSpares(u.messages, u.ctx, u.masked, full);
  }

  lemma CycleSpares(s: State, cfg: Config, i: Input, full: map<string, string>)
    requires Spared(s, full) && InputSpares(cfg, i, full) && Picks(i.lib, s.messages)
    ensures Spared(Cycle(s, cfg, i).state, full)
  {
    TrimmedWhole(s.messages, cfg.budget, cfg.env, i.lib, full);
    if i.answer.Answer? {
      var calls := i.answer.calls;
      var a := Asked(s.(messages := Trimmed(s.messages, cfg.budget, cfg.env, i.lib)), cfg, i.answer.text, calls);
      assert Spared(a, full);
      var outputs := if Executable(cfg, calls) == [] then [] else i.outputs;
      ToolsSpare(a, cfg, calls, outputs, full);
    }
  }

  lemma ToolsSpare(a: State, cfg: Config, calls: seq<Call>, outputs: seq<Output>, full: map<string, string>)
    requires Spared(a, full)
    requires forall k :: 0 <= k < |outputs| ==> Whole(OutputMessage(0, outputs[k]), full)
    requires var skipped := Skipped(cfg, calls); forall k :: 0 <= k < |skipped| ==> Strip(skipped[k].id) !in full
    ensures Spared(RunTools(a, cfg, calls, outputs).state, full)
  {
    var t := TakeOutputs(a, cfg.memory, outputs, Executable(cfg, calls));
    TakeSpares(a, cfg.memory, outputs, Executable(cfg, calls), full);
    FinishSpares(t, cfg, Skipped(cfg, calls), full);
  }

  /** Over every run of the loop whose library picks from what it is given: whatever is trimmed, compacted, stubbed or
      masked, a planner or instruction result is never masked, and as long as it is in the transcript it is there word
      for word. `full` gives the texts by call id. */
  lemma {:induction false} InstructionsStayWhole(s: State, cfg: Config, script: seq<Input>, full: map<string, string>)
    requires Spared(s, full) && ScriptSpares(cfg, script, full) && LibraryPicks(s, cfg, script)
    ensures Spared(Loop(s, cfg, script).state, full)
    decreases |script|
  {
    if script != [] {
      var r := Cycle(s, cfg, script[0]);
      assert InputSpares(cfg, script[0], full);
      CycleSpares(s, cfg, script[0], full);
      if r.exit == Continue {
        InstructionsStayWhole(r.state, cfg, script[1..], full);
      }
    }
  }
}
