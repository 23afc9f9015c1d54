/** Observation masking inside the tool loop: which calls it ever masks, over whole runs. */
module ToolLoopMasking {
  import opened Text
  import opened Lists
  import opened Messages
  import opened ContextWindow
  import opened ObservationMasking
  import opened ToolLoop
  import opened ToolLoopTranscript

  /** Everything masked so far was rightly masked, and steps are recorded for every handle, all of them past. */
  ghost predicate MaskedOk(c: Context, masked: set<string>) {
    (forall id :: id in masked ==> RightlyMasked(c, id)) && (forall id :: id in c.handles ==> id in c.steps) &&
    (forall id :: id in c.steps ==> c.steps[id] < c.current)
  }

  /** Without a working memory nothing is ever masked. */
  ghost predicate LoopMaskOk(s: State, cfg: Config) {
    if cfg.memory then MaskedOk(s.ctx, s.masked) else s.masked == {}
  }

  /** The ids of all outputs of a script. */
  function ScriptIds(script: seq<Input>): seq<string> {
    if script == [] then [] else OutputIds(script[0].outputs) + ScriptIds(script[1..])
  }

  /** The ids are used once each, and none of them before. */
  ghost predicate Unused(ids: seq<string>, c: Context) {
    NoDuplicates(ids) && forall i :: 0 <= i < |ids| ==> ids[i] !in c.steps
  }

  lemma {:induction false} RecordKeepsMasked(c: Context, masked: set<string>, id: string, hs: seq<Handle>)
    requires MaskedOk(c, masked) && id !in c.steps
    ensures MaskedOk(Record(c, id, hs), masked)
  {
    forall m | m in masked
      ensures RightlyMasked(Record(c, id, hs), m)
    {
      ArriveKeepsRight(c, m, id, hs);
    }
  }

  lemma {:induction false} PassKeepsMasked(ms: seq<Message>, c: Context, masked: set<string>)
    requires MaskedOk(c, masked)
    ensures MaskedOk(c, MaskPass(ms, c, masked).masked)
  {
    var now := MaskPass(ms, c, masked).masked;
    forall id | id in now
      ensures RightlyMasked(c, id)
    {
      if id !in masked {
        assert ms != [];
        PassByPosition(ms, c, masked, 0);
      }
    }
  }

  lemma UnusedSplit(first: seq<string>, rest: seq<string>, c: Context)
    requires Unused(first + rest, c)
    ensures Unused(first, c) && Unused(rest, c)
    ensures forall i, j :: 0 <= i < |first| && 0 <= j < |rest| ==> first[i] != rest[j]
  {
    var all := first + rest;
    assert forall i :: 0 <= i < |first| ==> all[i] == first[i];
    assert forall j :: 0 <= j < |rest| ==> all[|first| + j] == rest[j];
    forall i, j | 0 <= i < j < |rest|
      ensures rest[i] != rest[j]
    {
      assert all[|first| + i] != all[|first| + j];
    }
    forall i, j | 0 <= i < |first| && 0 <= j < |rest|
      ensures first[i] != rest[j]
    {
      assert all[i] != all[|first| + j];
    }
  }

  lemma FirstId(outputs: seq<Output>, later: seq<string>)
    requires outputs != []
    ensures OutputIds(outputs) + later == [Strip(outputs[0].callId)] + (OutputIds(outputs[1..]) + later)
  {
    assert OutputIds(outputs) == [Strip(outputs[0].callId)] + OutputIds(outputs[1..]);
  }

  lemma RecordKeepsUnused(c: Context, id: string, rest: seq<string>, hs: seq<Handle>)
    requires Unused([id] + rest, c)
    ensures id !in c.steps && Unused(rest, Record(c, id, hs))
  {
    UnusedSplit([id], rest, c);
    assert [id][0] == id;
  }

  /** Processing one output with an unused id keeps the invariant; later ids stay unused. */
  lemma TakeOneKeepsMasked(s: State, cfg: Config, outputs: seq<Output>, calls: seq<Call>, later: seq<string>)
    requires outputs != [] && LoopMaskOk(s, cfg) && (cfg.memory ==> Unused(OutputIds(outputs) + later, s.ctx))
    ensures var t := TakeOutput(s, cfg.memory, outputs[0], calls);
            LoopMaskOk(t, cfg) &&
            (cfg.memory ==> Unused(OutputIds(outputs[1..]) + later, t.ctx) && Unused(later, t.ctx))
  {
    if cfg.memory {
      var id, hs := Strip(outputs[0].callId), outputs[0].handles;
      FirstId(outputs, later);
      RecordKeepsUnused(s.ctx, id, OutputIds(outputs[1..]) + later, hs);
      RecordKeepsMasked(s.ctx, s.masked, id, hs);
      UnusedSplit(OutputIds(outputs[1..]), later, Record(s.ctx, id, hs));
    }
  }

  /** Processing outputs with unused ids keeps the invariant; later ids stay unused. */
  lemma {:induction false} TakeKeepsMasked(s: State, cfg: Config, outputs: seq<Output>, calls: seq<Call>,
                                           later: seq<string>)
    requires LoopMaskOk(s, cfg) && (cfg.memory ==> Unused(OutputIds(outputs) + later, s.ctx))
    ensures var t := TakeOutputs(s, cfg.memory, outputs, calls).state;
            LoopMaskOk(t, cfg) && (cfg.memory ==> Unused(later, t.ctx))
    decreases |outputs|
  {
    if outputs == [] {
      assert cfg.memory ==> OutputIds(outputs) + later == later;
    } else {
      TakeOneKeepsMasked(s, cfg, outputs, calls, later);
      var t := TakeOutput(s, cfg.memory, outputs[0], calls);
      if StopAfter(t.counters, Observe(outputs[0], calls)) == Running {
        TakeKeepsMasked(t, cfg, outputs[1..], calls, later);
      }
    }
  }

  lemma {:induction false} FinishKeepsMasked(t: Taken, cfg: Config, skipped: seq<Call>)
    requires LoopMaskOk(t.state, cfg)
    ensures var r := Finish(t, cfg, skipped).state; LoopMaskOk(r, cfg) && r.ctx == t.state.ctx
  {
    var u := WithStubs(t.state, MaxTools(cfg), skipped);
    if cfg.memory {
      PassKeepsMasked(u.messages, u.ctx, u.masked);
    }
  }

  lemma {:induction false} CycleKeepsMasked(s: State, cfg: Config, i: Input, later: seq<string>)
    requires LoopMaskOk(s, cfg) && (cfg.memory ==> Unused(OutputIds(i.outputs) + later, s.ctx))
    ensures var r := Cycle(s, cfg, i);
            LoopMaskOk(r.state, cfg) && (cfg.memory && r.exit == Continue ==> Unused(later, r.state.ctx))
  {
    if !i.cancelHead && i.answer.Answer? {
      var t := s.(messages := Trimmed(s.messages, cfg.budget, cfg.env, i.lib));
      ToolsKeepMasked(Asked(t, cfg, i.answer.text, i.answer.calls), cfg, i.answer.calls, i.outputs, later);
    }
  }

  lemma {:induction false} ToolsKeepMasked(a: State, cfg: Config, calls: seq<Call>, outputs: seq<Output>,
      later: seq<string>)
    requires LoopMaskOk(a, cfg) && (cfg.memory ==> Unused(OutputIds(outputs) + later, a.ctx))
    ensures Executable(cfg, calls) == [] ==> calls == []
    ensures var r := RunTools(a, cfg, calls, outputs).state; LoopMaskOk(r, cfg) && (cfg.memory ==> Unused(later, r.ctx))
  {
    TakeKeepsMasked(a, cfg, outputs, Executable(cfg, calls), later);
    var t := TakeOutputs(a, cfg.memory, outputs, Executable(cfg, calls));
    FinishKeepsMasked(t, cfg, Skipped(cfg, calls));
  }

  /** Over every run of the loop, with trimming, compaction, stubs and early stops, whose outputs carry ids used once:
      each masked call is at least three steps old, no error, no small table, and outdone by a later table if it bore
      one; without a working memory nothing is masked. */
  lemma {:induction false} LoopMasksRightly(s: State, cfg: Config, script: seq<Input>)
    requires LoopMaskOk(s, cfg) && (cfg.memory ==> Unused(ScriptIds(script), s.ctx))
    ensures LoopMaskOk(Loop(s, cfg, script).state, cfg)
    decreases |script|
  {
    if script != [] {
      var r := Cycle(s, cfg, script[0]);
      CycleKeepsMasked(s, cfg, script[0], ScriptIds(script[1..]));
      if r.exit == Continue {
        LoopMasksRightly(r.state, cfg, script[1..]);
      }
    }
  }

  /** In the loop too the most recent table-bearing result is never masked. */
  lemma {:induction false} LoopKeepsLatestTable(s: State, cfg: Config, script: seq<Input>, id: string)
    requires LoopMaskOk(s, cfg) && (cfg.memory ==> Unused(ScriptIds(script), s.ctx))
    requires var c := Loop(s, cfg, script).state.ctx;
             id in c.handles && id in c.steps && HasKind(c.handles[id], "table") &&
             forall other :: other in c.handles && other in c.steps && HasKind(c.handles[other], "table") ==>
                               c.steps[other] <= c.steps[id]
    ensures id !in Loop(s, cfg, script).state.masked
  {
    LoopMasksRightly(s, cfg, script);
    var end := Loop(s, cfg, script).state;
    assert id in end.masked ==> RightlyMasked(end.ctx, id);
  }
}
