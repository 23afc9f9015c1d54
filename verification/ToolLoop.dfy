/** The tool-calling loop: one cycle asks the model, runs its tool calls, counts repetitions and masks. */
module ToolLoop {
  import opened Options
  import opened Text
  import opened Lists
  import opened Decimal
  import opened Messages
  import opened ContextWindow
  import opened ObservationMasking
  import opened Counting

  // ----- what the environment supplies -----

  /** A failed result: the compacted message and the fields of its artifact, "" when absent. */
  datatype Failure = Failure(message: string, errorType: string, missing: string, error: string)

  /** A result of the tool node with the text and the handles built from it. */
  datatype Output = Output(name: string, callId: string, text: string, failure: Option<Failure>, handles: seq<Handle>)

  datatype Answer = Unreachable | Answer(text: string, calls: seq<Call>)

  /** Everything foreign that happens in one iteration: cancellation at its three check points, the result of
      `trim_messages`, the model's answer, the tool node's outputs. */
  datatype Input = Input(cancelHead: bool, lib: Option<seq<Message>>, answer: Answer,
                         cancelAfterAnswer: bool, cancelBeforeTools: bool, outputs: seq<Output>)

  datatype Config = Config(budget: int, env: Env, maxTools: nat, masking: bool, memory: bool)

  // ----- repetition counters -----

  datatype FailureKey = FailureKey(tool: string, args: string, exception: string,
                                   missing: Option<string>, detail: string)

  datatype SuccessKey = SuccessKey(tool: string, args: string, result: string)

  /** What one processed output counts as; a success answering no known call counts for nothing. */
  datatype Observation = Failed(fkey: FailureKey) | Succeeded(skey: SuccessKey) | Unclaimed

  datatype Counters = Counters(failures: map<FailureKey, nat>, byTool: map<string, nat>,
                               successes: map<SuccessKey, nat>,
                               fingerprints: seq<FailureKey>, retries: nat)

  datatype Stop = Running | SameFailure | SameSuccess

  /** The first word of s and what follows it. */
  function Word(s: string): string {
    if s == "" || IsSpace(s[0]) then "" else [s[0]] + Word(s[1..])
  }

  /** `" ".join(s.split())` */
  function Collapse(s: string): string
    decreases |s|
  {
    var t := StripLeft(s);
    StripLeftShorter(s);
    if t == "" then ""
    else
      WordFits(t);
      var rest := Collapse(t[|Word(t)|..]);
      if rest == "" then Word(t) else Word(t) + " " + rest
  }

  lemma StripLeftShorter(s: string)
    ensures |StripLeft(s)| <= |s| && (StripLeft(s) != "" ==> !IsSpace(StripLeft(s)[0]))
  {
  }

  lemma WordFits(s: string)
    ensures |Word(s)| <= |s| && (s != "" && !IsSpace(s[0]) ==> Word(s) != "")
  {
  }

  function OrElse(s: string, other: string): string {
    if s == "" then other else s
  }

  /** `_failure_key` */
  function FailureKeyOf(tool: string, args: string, f: Failure): FailureKey {
    var missing := LowerAll(Strip(f.missing));
    FailureKey(tool, args, LowerAll(Strip(OrElse(f.errorType, "ToolError"))),
               if missing == "" then None else Some(missing),
               if missing != "" then "" else LowerAll(Collapse(OrElse(f.error, f.message))))
  }

  /** The call with this id; a later call wins. */
  function FindCall(calls: seq<Call>, id: string): Option<Call> {
    if calls == [] then None
    else if Strip(calls[|calls| - 1].id) == id then Some(calls[|calls| - 1])
    else FindCall(calls[..|calls| - 1], id)
  }

  function Observe(o: Output, calls: seq<Call>): Observation {
    var tool, call := Strip(o.name), FindCall(calls, Strip(o.callId));
    match o.failure
    case Some(f) => Failed(FailureKeyOf(tool, if call.Some? then call.value.args else "", f))
    case None => if call.Some? then Succeeded(SuccessKey(tool, call.value.args, Collapse(o.text))) else Unclaimed
  }

  function Count(c: Counters, ob: Observation): Counters {
    match ob
    case Failed(k) =>
      Counters(Bump(c.failures, k), Bump(c.byTool, k.tool), c.successes,
               if k in c.fingerprints then c.fingerprints else c.fingerprints + [k],
               if Get(c.byTool, k.tool) + 1 > 1 then c.retries + 1 else c.retries)
    case Succeeded(k) => c.(successes := Bump(c.successes, k))
    case Unclaimed => c
  }

  /** Whether the loop stops after counting ob. */
  function StopAfter(c: Counters, ob: Observation): Stop {
    match ob
    case Failed(k) => if Get(c.failures, k) >= 3 then SameFailure else Running
    case Succeeded(k) => if Get(c.successes, k) >= 3 then SameSuccess else Running
    case Unclaimed => Running
  }

  // ----- the loop's state -----

  /** The variables of the loop. `next` supplies message identities; `log` is a history of the observations
      that nothing reads. */
  datatype State = State(messages: seq<Message>, next: nat, ctx: Context, masked: set<string>, toolCount: nat,
                         counters: Counters, totalCalls: nat, toolNames: seq<string>, log: seq<Observation>)

  function ObservationText(o: Output): string {
    if o.failure.Some? && !StartsLower(o.text, "pandas_tool failed") && !StartsLower(o.text, "plotly_tool failed")
    then o.failure.value.message else o.text
  }

  predicate StartsLower(text: string, prefix: string) {
    prefix <= LowerAll(text)
  }

  function OutputMessage(uid: nat, o: Output): Message {
    Tool(uid, o.callId, o.name, ObservationText(o))
  }

  /** Step and handles of the output; without a working memory every known id sits at step 0. */
  function Remember(ctx: Context, memory: bool, o: Output): Context {
    var id := Strip(o.callId);
    if memory then Record(ctx, id, o.handles)
    else if id != "" then ctx.(steps := ctx.steps[id := 0])
    else ctx
  }

  function TakeOutput(s: State, memory: bool, o: Output, calls: seq<Call>): State {
    var ob := Observe(o, calls);
    s.(messages := s.messages + [OutputMessage(s.next, o)], next := s.next + 1,
       ctx := Remember(s.ctx, memory, o), toolCount := s.toolCount + (if memory then 1 else 0),
       counters := Count(s.counters, ob), log := s.log + [ob])
  }

  /** `left` counts the outputs not processed. */
  datatype Taken = Taken(state: State, stop: Stop, left: nat)

  /** Processes outputs until one of them repeats for the third time; later outputs are left. */
  function TakeOutputs(s: State, memory: bool, outputs: seq<Output>, calls: seq<Call>): Taken
    decreases |outputs|
  {
    if outputs == [] then Taken(s, Running, 0)
    else
      var t := TakeOutput(s, memory, outputs[0], calls);
      var stop := StopAfter(t.counters, Observe(outputs[0], calls));
      if stop != Running then Taken(t, stop, |outputs| - 1) else TakeOutputs(t, memory, outputs[1..], calls)
  }

  /** `_max_tools_per_cycle_text` */
  function SkippedText(limit: nat): string {
    "Tool call skipped: MAX_TOOLS_PER_CYCLE=" + NatText(limit) +
    ". Request this tool again in the next cycle if it is still needed."
  }

  function Stub(uid: nat, limit: nat, c: Call): Message {
    Tool(uid, Strip(c.id), Strip(c.name), SkippedText(limit))
  }

  function Stubs(next: nat, limit: nat, calls: seq<Call>): seq<Message> {
    seq(|calls|, i requires 0 <= i < |calls| => Stub(next + i, limit, calls[i]))
  }

  function AddNames(names: seq<string>, calls: seq<Call>): seq<string>
    decreases |calls|
  {
    if calls == [] then names
    else
      var n := Strip(calls[0].name);
      AddNames(if n != "" && n !in names then names + [n] else names, calls[1..])
  }

  /** How an iteration ends; `left` counts the outputs an early stop did not process. */
  datatype Exit =
    | Continue
    | Cancelled
    | CancelledBeforeTools
    | LlmDown
    | Answered
    | Stopped(stop: Stop, left: nat)
    | Exhausted

  datatype Result = Result(state: State, exit: Exit)

  /** At least two calls are run in each cycle. */
  function MaxTools(cfg: Config): nat {
    if cfg.maxTools < 2 then 2 else cfg.maxTools
  }

  function Executable(cfg: Config, calls: seq<Call>): seq<Call> {
    if |calls| <= MaxTools(cfg) then calls else calls[..MaxTools(cfg)]
  }

  function Skipped(cfg: Config, calls: seq<Call>): seq<Call> {
    if |calls| <= MaxTools(cfg) then [] else calls[MaxTools(cfg)..]
  }

  /** The state once the model's answer is appended and its calls are noted. */
  function Asked(s: State, cfg: Config, text: string, calls: seq<Call>): State {
    s.(messages := s.messages + [AI(s.next, text, calls)], next := s.next + 1,
       totalCalls := s.totalCalls + |Executable(cfg, calls)|,
       toolNames := AddNames(s.toolNames, Executable(cfg, calls)))
  }

  function Masked(s: State, cfg: Config): State {
    if cfg.masking && cfg.memory && s.ctx.current >= MIN_STEPS && s.toolCount >= MIN_TOOLS then
      var p := MaskPass(s.messages, s.ctx, s.masked);
      s.(messages := p.messages, masked := p.masked)
    else s
  }

  function WithStubs(s: State, limit: nat, skipped: seq<Call>): State {
    s.(messages := s.messages + Stubs(s.next, limit, skipped), next := s.next + |skipped|)
  }

  /** After the outputs: the stubs, then the early stop or the masking pass. */
  function Finish(t: Taken, cfg: Config, skipped: seq<Call>): Result {
    var u := WithStubs(t.state, MaxTools(cfg), skipped);
    if t.stop != Running then Result(u, Stopped(t.stop, t.left)) else Result(Masked(u, cfg), Continue)
  }

  function RunTools(s: State, cfg: Config, calls: seq<Call>, outputs: seq<Output>): Result {
    Finish(TakeOutputs(s, cfg.memory, outputs, Executable(cfg, calls)), cfg, Skipped(cfg, calls))
  }

  /** One iteration. */
  function Cycle(s: State, cfg: Config, i: Input): Result {
    if i.cancelHead then Result(s, Cancelled)
    else
      var t := s.(messages := Trimmed(s.messages, cfg.budget, cfg.env, i.lib));
      match i.answer
      case Unreachable => Result(t, LlmDown)
      case Answer(text, calls) =>
        if i.cancelAfterAnswer then Result(t, Cancelled)
        else if calls == [] then Result(t, Answered)
        else if i.cancelBeforeTools && Executable(cfg, calls) != [] then
          Result(Asked(t, cfg, text, calls), CancelledBeforeTools)
        else RunTools(Asked(t, cfg, text, calls), cfg, calls,
                      if Executable(cfg, calls) == [] then [] else i.outputs)
  }

  /** The loop over its allowed iterations. */
  function Loop(s: State, cfg: Config, script: seq<Input>): Result
    decreases |script|
  {
    if script == [] then Result(s, Exhausted)
    else
      var r := Cycle(s, cfg, script[0]);
      if r.exit != Continue then r else Loop(r.state, cfg, script[1..])
  }

  // ----- the loop as it runs -----

  method ProcessOutputs(s0: State, memory: bool, outputs: seq<Output>, calls: seq<Call>) returns (t: Taken)
    ensures t == TakeOutputs(s0, memory, outputs, calls)
  {
    var s := s0;
    for i := 0 to |outputs|
      invariant TakeOutputs(s0, memory, outputs, calls) == TakeOutputs(s, memory, outputs[i..], calls)
    {
      var o := outputs[i];
      assert outputs[i..][0] == o && outputs[i..][1..] == outputs[i + 1..];
      var ob := Observe(o, calls);
      ghost var before := s;
      s := s.(messages := s.messages + [OutputMessage(s.next, o)], next := s.next + 1);
      s := s.(ctx := Remember(s.ctx, memory, o), toolCount := s.toolCount + (if memory then 1 else 0));
      s := s.(counters := Count(s.counters, ob), log := s.log + [ob]);
      assert s == TakeOutput(before, memory, o, calls);
      var stop := StopAfter(s.counters, ob);
      if stop != Running {
        return Taken(s, stop, |outputs| - i - 1);
      }
    }
    t := Taken(s, Running, 0);
  }

  method RunCycle(s0: State, cfg: Config, i: Input) returns (s: State, exit: Exit)
    ensures Result(s, exit) == Cycle(s0, cfg, i)
  {
    s := s0;
    if i.cancelHead {
      return s, Cancelled;
    }
    var trimmed := TrimContextMessages(s.messages, cfg.budget, cfg.env, i.lib);
    s := s.(messages := trimmed);
    if i.answer.Unreachable? {
      return s, LlmDown;
    }
    if i.cancelAfterAnswer {
      return s, Cancelled;
    }
    var calls := i.answer.calls;
    if calls == [] {
      return s, Answered;
    }
    var executable := Executable(cfg, calls);
    s := Asked(s, cfg, i.answer.text, calls);
    var outputs: seq<Output> := [];
    if executable != [] {
      if i.cancelBeforeTools {
        return s, CancelledBeforeTools;
      }
      outputs := i.outputs;
    }
    s, exit := ExecuteTools(s, cfg, calls, outputs);
  }

  method ExecuteTools(s0: State, cfg: Config, calls: seq<Call>, outputs: seq<Output>) returns (s: State, exit: Exit)
    ensures Result(s, exit) == RunTools(s0, cfg, calls, outputs)
  {
    var t := ProcessOutputs(s0, cfg.memory, outputs, Executable(cfg, calls));
    s, exit := EndCycle(t, cfg, Skipped(cfg, calls));
  }

  /** After the outputs of an iteration: stubs for the calls over the limit, then the early stop or a masking pass. */
  method EndCycle(t: Taken, cfg: Config, skipped: seq<Call>) returns (s: State, exit: Exit)
    ensures Result(s, exit) == Finish(t, cfg, skipped)
  {
    s := t.state.(messages := t.state.messages + Stubs(t.state.next, MaxTools(cfg), skipped),
                 next := t.state.next + |skipped|);
    if t.stop != Running {
      return s, Stopped(t.stop, t.left);
    }
    s := MaskTranscript(s, cfg);
    exit := Continue;
  }

  /** The masking pass at the end of an iteration, on the message list itself. */
  method MaskTranscript(s0: State, cfg: Config) returns (s: State)
    ensures s == Masked(s0, cfg)
  {
    s := s0;
    if cfg.masking && cfg.memory && s.ctx.current >= MIN_STEPS && s.toolCount >= MIN_TOOLS {
      var buffer := new Message[|s.messages|](k requires 0 <= k < |s.messages| => s.messages[k]);
      assert buffer[..] == s.messages;
      var masked := ApplyObservationMasking(buffer, s.ctx, s.masked);
      s := s.(messages := buffer[..], masked := masked);
    }
  }

  datatype Outcome = Success | Partial | Unavailable | Failing | WasCancelled

  datatype Response = Response(outcome: Outcome, fingerprints: seq<FailureKey>, retryCount: nat, toolErrorCount: nat,
                               messages: seq<Message>, toolCalls: nat, toolNames: seq<string>)

  /** What the tool collector counted and named on its own. */
  datatype Collected = Collected(calls: nat, names: seq<string>)

  function OutcomeOf(e: Exit, artifacts: bool): Outcome {
    match e
    case Continue => Failing
    case Cancelled => WasCancelled
    case CancelledBeforeTools => WasCancelled
    case LlmDown => if artifacts then Partial else Unavailable
    case Answered => Success
    case Stopped(stop, _) => if stop == SameFailure || artifacts then Partial else Failing
    case Exhausted => if artifacts then Partial else Failing
  }

  /** The loop reached its normal return: an answer, an early stop, or no iteration left. */
  predicate NormalReturn(e: Exit) {
    e.Answered? || e.Stopped? || e.Exhausted?
  }

  /** `_merge_tool_names` */
  method MergeToolNames(primary: seq<string>, secondary: seq<string>) returns (merged: seq<string>)
    ensures merged == Dedupe(NonBlankNames(primary + secondary))
  {
    merged := [];
    var names := primary + secondary;
    for i := 0 to |names|
      invariant merged == Dedupe(NonBlankNames(names[..i]))
    {
      var name := Strip(names[i]);
      assert names[..i + 1] == names[..i] + [names[i]];
      NonBlankSnoc(names[..i], names[i]);
      if name != "" && name !in merged {
        merged := merged + [name];
      }
    }
    assert names[..|names|] == names;
  }

  lemma {:induction false} NonBlankSnoc(names: seq<string>, name: string)
    ensures var was, now := NonBlankNames(names), NonBlankNames(names + [name]);
            if Strip(name) == "" then now == was
            else Dedupe(now) == if Strip(name) in Dedupe(was) then Dedupe(was) else Dedupe(was) + [Strip(name)]
  {
    NonBlankAppends(names, name);
    DedupeSnoc(NonBlankNames(names), Strip(name));
  }

  lemma {:induction false} NonBlankAppends(names: seq<string>, name: string)
    ensures NonBlankNames(names + [name]) == NonBlankNames(names) + if Strip(name) == "" then [] else [Strip(name)]
  {
    if names == [] {
      assert [] + [name] == [name] && [name][1..] == [];
    } else {
      NonBlankAppends(names[1..], name);
      assert (names + [name])[1..] == names[1..] + [name];
    }
  }

  /** Runs max(1, max_iterations) iterations, one input each. */
  method DirectToolLoop(s0: State, cfg: Config, script: seq<Input>, artifacts: bool, own: Collected)
      returns (r: Response)
    requires script != []
    ensures var end := Loop(s0, cfg, script);
            r.messages == end.state.messages && r.outcome == OutcomeOf(end.exit, artifacts) &&
            r.toolCalls == (if end.state.totalCalls >= own.calls then end.state.totalCalls else own.calls) &&
            r.toolNames == Dedupe(NonBlankNames(end.state.toolNames + own.names)) &&
            if end.exit.Answered? || end.exit.Stopped? || end.exit.Exhausted? then
              r.toolErrorCount == Total(end.state.counters.failures) &&
              r.retryCount == end.state.counters.retries && r.fingerprints == end.state.counters.fingerprints
            else r.toolErrorCount == r.retryCount == 0 && r.fingerprints == []
  {
    var s, exit := s0, Exhausted;
    for i := 0 to |script|
      invariant exit == Exhausted
      invariant Loop(s0, cfg, script) == Loop(s, cfg, script[i..])
    {
      assert script[i..][1..] == script[i + 1..];
      var e;
      s, e := RunCycle(s, cfg, script[i]);
      if e != Continue {
        exit := e;
        break;
      }
    }
    var calls := if s.totalCalls >= own.calls then s.totalCalls else own.calls;
    var names := MergeToolNames(s.toolNames, own.names);
    if NormalReturn(exit) {
      var errors := SumValues(s.counters.failures);
      r := Response(OutcomeOf(exit, artifacts), s.counters.fingerprints, s.counters.retries, errors, s.messages,
                    calls, names);
    } else {
      r := Response(OutcomeOf(exit, artifacts), [], 0, 0, s.messages, calls, names);
    }
  }
}
