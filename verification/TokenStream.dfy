/** The stream handler that turns LLM callbacks into token and thinking events. */
module TokenStream {
  import opened Text
  import opened ThinkingParser
  import opened ThinkingProperties
  import opened ThinkingRuns

  datatype Event = ThinkingStart | ReasoningToken(text: string) | Token(text: string) | ThinkingEnd(text: string)

  /** One callback; `side` and `final` are the provider's own reasoning field, "" when absent. */
  datatype Callback = NewToken(token: string, side: string) | LlmEnd(final: string)

  datatype Switches = Switches(show: bool, enable: bool)

  /** The handler's fields, its current parser's buffer included. */
  datatype State = State(
    buf: string, inside: bool, queue: seq<Event>,
    chunks: seq<string>, visChunks: seq<string>, allReasoning: seq<string>, allVisible: seq<string>,
    started: bool, emitted: nat, pendingThinking: string, pendingVisible: string, steps: seq<string>)

  const INITIAL := State("", false, [], [], [], [], [], false, 0, "", "", [])

  function EmitReasoning(s: State, w: Switches, text: string): State {
    if text == "" then s
    else
      var t := s.(chunks := s.chunks + [text], allReasoning := s.allReasoning + [text]);
      if !w.show then t
      else t.(started := true, emitted := s.emitted + 1,
              queue := (if s.started then s.queue else s.queue + [ThinkingStart]) + [ReasoningToken(text)])
  }

  function EmitVisible(s: State, text: string): State {
    if text == "" then s
    else s.(visChunks := s.visChunks + [text], allVisible := s.allVisible + [text], queue := s.queue + [Token(text)])
  }

  function OnNewToken(s: State, w: Switches, token: string, side: string): State {
    var s1 := if w.enable then EmitReasoning(s, w, side) else s;
    if token == "" then s1
    else
      var out := Scan(s1.buf + token, s1.inside);
      var s2 := EmitVisible(s1.(buf := out.buf, inside := out.inside), out.out.vis);
      if w.enable then EmitReasoning(s2, w, out.out.rsn) else s2
  }

  function EmitFlushed(s: State, w: Switches): State {
    var out := Only(s.buf, s.inside);
    var s1 := s.(buf := "", inside := false);
    EmitVisible(if w.enable then EmitReasoning(s1, w, out.rsn) else s1, out.vis)
  }

  function TakeNarration(s: State): State {
    var narration := Strip(Join(s.visChunks));
    s.(pendingVisible := if narration != "" then narration else s.pendingVisible, visChunks := [])
  }

  function OnLlmEnd(s: State, w: Switches, final: string): State {
    var s3 := TakeNarration(EmitFlushed(s, w));
    var s4 := if s3.chunks == [] && w.enable then EmitReasoning(s3, w, final) else s3;
    CloseBlock(s4, w)
  }

  function CloseBlock(s: State, w: Switches): State {
    if s.chunks == [] then s.(started := false)
    else
      var complete := Join(s.chunks);
      s.(queue := if w.show then s.queue + [ThinkingEnd(complete)] else s.queue,
         pendingThinking := complete, steps := s.steps + [complete], chunks := [], emitted := 0, started := false)
  }

  function Step(s: State, w: Switches, c: Callback): State {
    match c
    case NewToken(token, side) => OnNewToken(s, w, token, side)
    case LlmEnd(final) => OnLlmEnd(s, w, final)
  }

  function RunCallbacks(s: State, w: Switches, cs: seq<Callback>): State
    decreases |cs|
  {
    if cs == [] then s else RunCallbacks(Step(s, w, cs[0]), w, cs[1..])
  }

  // ----- the handler object -----

  class TokenStreamCallbackHandler {
    const switches: Switches
    var parser: ThinkingOutputParser
    var queue: seq<Event>
    var reasoningTokensEmitted: nat
    var reasoningChunks: seq<string>
    var visibleChunks: seq<string>
    var allReasoning: seq<string>
    var allVisible: seq<string>
    var thinkingStartedThisCall: bool
    var pendingThinking: string
    var pendingVisible: string
    var perStepReasoning: seq<string>

    function Fields(): State
      reads this, parser
    {
      State(parser.buf, parser.inside, queue, reasoningChunks, visibleChunks, allReasoning, allVisible,
            thinkingStartedThisCall, reasoningTokensEmitted, pendingThinking, pendingVisible, perStepReasoning)
    }

    constructor (showThink: bool, enableThinking: bool)
      ensures Fields() == INITIAL && switches == Switches(showThink, enableThinking) && fresh(parser)
    {
      switches := Switches(showThink, enableThinking);
      parser := new ThinkingOutputParser();
      queue, reasoningTokensEmitted := [], 0;
      reasoningChunks, visibleChunks, allReasoning, allVisible := [], [], [], [];
      thinkingStartedThisCall, pendingThinking, pendingVisible, perStepReasoning := false, "", "", [];
    }

    method EmitReasoningText(text: string)
      modifies this
      ensures parser == old(parser)
      ensures Fields() == EmitReasoning(old(Fields()), switches, text)
    {
      if text == "" {
        return;
      }
      reasoningChunks := reasoningChunks + [text];
      allReasoning := allReasoning + [text];
      if !switches.show {
        return;
      }
      if !thinkingStartedThisCall {
        thinkingStartedThisCall := true;
        queue := queue + [ThinkingStart];
      }
      reasoningTokensEmitted := reasoningTokensEmitted + 1;
      queue := queue + [ReasoningToken(text)];
    }

    method EmitVisibleText(text: string)
      modifies this
      ensures parser == old(parser)
      ensures Fields() == EmitVisible(old(Fields()), text)
    {
      if text != "" {
        visibleChunks := visibleChunks + [text];
        allVisible := allVisible + [text];
        queue := queue + [Token(text)];
      }
    }

    method HandleNewToken(token: string, side: string)
      modifies this, parser
      ensures parser == old(parser)
      ensures Fields() == OnNewToken(old(Fields()), switches, token, side)
    {
      if switches.enable {
        EmitReasoningText(side);
      }
      if token == "" {
        return;
      }
      var visible, reasoning := parser.Feed(token);
      EmitVisibleText(visible);
      if switches.enable {
        EmitReasoningText(reasoning);
      }
    }

    method FlushParser()
      modifies this, parser
      ensures parser == old(parser)
      ensures Fields() == EmitFlushed(old(Fields()), switches)
    {
      var visible, reasoning := parser.Flush();
      if switches.enable {
        EmitReasoningText(reasoning);
      }
      EmitVisibleText(visible);
    }

    method KeepNarration()
      modifies this
      ensures parser == old(parser)
      ensures Fields() == TakeNarration(old(Fields()))
    {
      var completeVisible := Strip(Join(visibleChunks));
      if completeVisible != "" {
        pendingVisible := completeVisible;
      }
      visibleChunks := [];
    }

    method HandleLlmEnd(final: string)
      modifies this, parser
      ensures fresh(parser)
      ensures Fields() == OnLlmEnd(old(Fields()), switches, final)
    {
      FlushParser();
      KeepNarration();
      parser := new ThinkingOutputParser();
      if reasoningChunks == [] && switches.enable {
        EmitReasoningText(final);
      }
      FinishBlock();
    }

    method FinishBlock()
      modifies this
      ensures parser == old(parser)
      ensures Fields() == CloseBlock(old(Fields()), switches)
    {
      if reasoningChunks != [] {
        var completeThinking := Join(reasoningChunks);
        if switches.show {
          queue := queue + [ThinkingEnd(completeThinking)];
        }
        pendingThinking := completeThinking;
        perStepReasoning := perStepReasoning + [completeThinking];
        reasoningChunks := [];
        reasoningTokensEmitted := 0;
      }
      thinkingStartedThisCall := false;
    }

    method HandleAll(callbacks: seq<Callback>)
      modifies this, parser
      ensures parser == old(parser) || fresh(parser)
      ensures Fields() == RunCallbacks(old(Fields()), switches, callbacks)
    {
      for i := 0 to |callbacks|
        invariant parser == old(parser) || fresh(parser)
        invariant RunCallbacks(old(Fields()), switches, callbacks) == RunCallbacks(Fields(), switches, callbacks[i..])
      {
        match callbacks[i] {
          case NewToken(token, side) => HandleNewToken(token, side);
          case LlmEnd(final) => HandleLlmEnd(final);
        }
        assert callbacks[i..][1..] == callbacks[i + 1..];
      }
    }

    method TakePendingThinking() returns (thinking: string)
      modifies this
      ensures thinking == old(pendingThinking) && parser == old(parser)
      ensures Fields() == old(Fields()).(pendingThinking := "")
    {
      thinking, pendingThinking := pendingThinking, "";
    }
  }

  // ----- the event protocol -----

  /** Where a reader of the event stream stands: outside a block, inside one, or at a protocol violation. */
  datatype Block = Closed | Opened(text: string, tokens: nat) | Broken

  /** A block is one start, at least one non-empty reasoning token, and an end carrying their concatenation. */
  function Follow(b: Block, e: Event): Block {
    match e
    case Token(_) => b
    case ThinkingStart => if b == Closed then Opened("", 0) else Broken
    case ReasoningToken(t) => if b.Opened? && t != "" then Opened(b.text + t, b.tokens + 1) else Broken
    case ThinkingEnd(t) => if b.Opened? && b.tokens >= 1 && t == b.text then Closed else Broken
  }

  function FollowAll(b: Block, es: seq<Event>): Block
    decreases |es|
  {
    if es == [] then b else FollowAll(Follow(b, es[0]), es[1..])
  }

  lemma {:induction false} FollowAppend(b: Block, es: seq<Event>, more: seq<Event>)
    ensures FollowAll(b, es + more) == FollowAll(FollowAll(b, es), more)
    decreases |es|
  {
    if es == [] {
      assert es + more == more;
    } else {
      FollowAppend(Follow(b, es[0]), es[1..], more);
      assert (es + more)[1..] == es[1..] + more;
    }
  }

  lemma FollowSnoc(b: Block, es: seq<Event>, e: Event)
    ensures FollowAll(b, es + [e]) == Follow(FollowAll(b, es), e)
  {
    FollowAppend(b, es, [e]);
    assert [e][1..] == [];
    assert FollowAll(FollowAll(b, es), [e]) == FollowAll(Follow(FollowAll(b, es), e), []);
  }

  /** The block a reader has open is the handler's current thinking. */
  ghost predicate InStep(s: State) {
    s.started == (s.chunks != []) &&
    FollowAll(Closed, s.queue) == if s.chunks == [] then Closed else Opened(Join(s.chunks), |s.chunks|)
  }

  lemma EmitReasoningInStep(s: State, w: Switches, text: string)
    requires w.show && InStep(s)
    ensures InStep(EmitReasoning(s, w, text))
  {
    if text != "" {
      var q := if s.started then s.queue else s.queue + [ThinkingStart];
      FollowSnoc(Closed, s.queue, ThinkingStart);
      FollowSnoc(Closed, q, ReasoningToken(text));
      JoinSnoc(s.chunks, text);
    }
  }

  lemma EmitVisibleInStep(s: State, text: string)
    requires InStep(s)
    ensures InStep(EmitVisible(s, text))
  {
    if text != "" {
      FollowSnoc(Closed, s.queue, Token(text));
    }
  }

  lemma CloseBlockInStep(s: State, w: Switches)
    requires w.show && InStep(s)
    ensures InStep(CloseBlock(s, w)) && CloseBlock(s, w).chunks == []
  {
    if s.chunks != [] {
      FollowSnoc(Closed, s.queue, ThinkingEnd(Join(s.chunks)));
    }
  }

  lemma StepInStep(s: State, w: Switches, c: Callback)
    requires w.show && InStep(s)
    ensures InStep(Step(s, w, c))
  {
    match c
    case NewToken(token, side) =>
      EmitReasoningInStep(s, w, side);
      var s1 := if w.enable then EmitReasoning(s, w, side) else s;
      if token != "" {
        var out := Scan(s1.buf + token, s1.inside);
        var s2 := s1.(buf := out.buf, inside := out.inside);
        EmitVisibleInStep(s2, out.out.vis);
        EmitReasoningInStep(EmitVisible(s2, out.out.vis), w, out.out.rsn);
      }
    case LlmEnd(final) =>
      var out := Only(s.buf, s.inside);
      var s1 := s.(buf := "", inside := false);
      EmitReasoningInStep(s1, w, out.rsn);
      var s1' := if w.enable then EmitReasoning(s1, w, out.rsn) else s1;
      EmitVisibleInStep(s1', out.vis);
      var s2 := EmitVisible(s1', out.vis);
      var s3 := TakeNarration(s2);
      EmitReasoningInStep(s3, w, final);
      CloseBlockInStep(if s3.chunks == [] && w.enable then EmitReasoning(s3, w, final) else s3, w);
  }

  /** Over any run with thinking shown the thinking events are complete blocks, the last possibly still open. */
  lemma {:induction false} BlocksOverAnyRun(s: State, w: Switches, cs: seq<Callback>)
    requires w.show && InStep(s)
    ensures var b := FollowAll(Closed, RunCallbacks(s, w, cs).queue);
            b == Closed || (b.Opened? && b.tokens >= 1 && b.text == Join(RunCallbacks(s, w, cs).chunks))
    ensures InStep(RunCallbacks(s, w, cs))
    decreases |cs|
  {
    if cs != [] {
      StepInStep(s, w, cs[0]);
      BlocksOverAnyRun(Step(s, w, cs[0]), w, cs[1..]);
    }
  }

  // ----- hiding the thinking -----

  function TokensOf(es: seq<Event>): seq<Event> {
    if es == [] then [] else (if es[0].Token? then [es[0]] else []) + TokensOf(es[1..])
  }

  lemma {:induction false} TokensAppend(a: seq<Event>, b: seq<Event>)
    ensures TokensOf(a + b) == TokensOf(a) + TokensOf(b)
  {
    if a == [] {
      assert a + b == b;
    } else {
      TokensAppend(a[1..], b);
      assert (a + b)[1..] == a[1..] + b;
    }
  }

  /** Two handlers that differ only in what the reader sees of the thinking. */
  ghost predicate SameButThinking(a: State, b: State) {
    a == b.(queue := a.queue, started := a.started, emitted := a.emitted) &&
    TokensOf(a.queue) == b.queue
  }

  lemma TokensSnoc(es: seq<Event>, e: Event)
    ensures TokensOf(es + [e]) == if e.Token? then TokensOf(es) + [e] else TokensOf(es)
  {
    TokensAppend(es, [e]);
    assert [e][1..] == [];
    assert TokensOf([e]) == (if e.Token? then [e] else []) + TokensOf([]);
  }

  lemma EmitReasoningSame(a: State, b: State, enable: bool, text: string)
    requires SameButThinking(a, b)
    ensures SameButThinking(EmitReasoning(a, Switches(true, enable), text),
                            EmitReasoning(b, Switches(false, enable), text))
  {
    if text != "" {
      var q := if a.started then a.queue else a.queue + [ThinkingStart];
      TokensSnoc(a.queue, ThinkingStart);
      TokensSnoc(q, ReasoningToken(text));
    }
  }

  lemma EmitVisibleSame(a: State, b: State, text: string)
    requires SameButThinking(a, b)
    ensures SameButThinking(EmitVisible(a, text), EmitVisible(b, text))
  {
    TokensSnoc(a.queue, Token(text));
  }

  lemma CloseBlockSame(a: State, b: State, enable: bool)
    requires SameButThinking(a, b)
    ensures SameButThinking(CloseBlock(a, Switches(true, enable)), CloseBlock(b, Switches(false, enable)))
  {
    TokensSnoc(a.queue, ThinkingEnd(Join(a.chunks)));
  }

  lemma StepSame(a: State, b: State, enable: bool, c: Callback)
    requires SameButThinking(a, b)
    ensures SameButThinking(Step(a, Switches(true, enable), c), Step(b, Switches(false, enable), c))
  {
    var w, v := Switches(true, enable), Switches(false, enable);
    match c
    case NewToken(token, side) =>
      EmitReasoningSame(a, b, enable, side);
      var a1 := if enable then EmitReasoning(a, w, side) else a;
      var b1 := if enable then EmitReasoning(b, v, side) else b;
      if token != "" {
        var out := Scan(a1.buf + token, a1.inside);
        var a2, b2 := a1.(buf := out.buf, inside := out.inside), b1.(buf := out.buf, inside := out.inside);
        EmitVisibleSame(a2, b2, out.out.vis);
        EmitReasoningSame(EmitVisible(a2, out.out.vis), EmitVisible(b2, out.out.vis), enable, out.out.rsn);
      }
    case LlmEnd(final) =>
      LlmEndSame(a, b, enable, final);
  }

  lemma LlmEndSame(a: State, b: State, enable: bool, final: string)
    requires SameButThinking(a, b)
    ensures SameButThinking(OnLlmEnd(a, Switches(true, enable), final), OnLlmEnd(b, Switches(false, enable), final))
  {
    var w, v := Switches(true, enable), Switches(false, enable);
    var out := Only(a.buf, a.inside);
    var a1, b1 := a.(buf := "", inside := false), b.(buf := "", inside := false);
    EmitReasoningSame(a1, b1, enable, out.rsn);
    var a1' := if enable then EmitReasoning(a1, w, out.rsn) else a1;
    var b1' := if enable then EmitReasoning(b1, v, out.rsn) else b1;
    EmitVisibleSame(a1', b1', out.vis);
    var a2, b2 := EmitVisible(a1', out.vis), EmitVisible(b1', out.vis);
    var a3, b3 := TakeNarration(a2), TakeNarration(b2);
    EmitReasoningSame(a3, b3, enable, final);
    var a4 := if a3.chunks == [] && enable then EmitReasoning(a3, w, final) else a3;
    var b4 := if b3.chunks == [] && enable then EmitReasoning(b3, v, final) else b3;
    CloseBlockSame(a4, b4, enable);
  }

  /** Turning the display off removes exactly the thinking events: the visible token events, the collected
      reasoning, the per-call steps and what tool calls consume stay the same. */
  lemma {:induction false} HidingThinking(a: State, b: State, enable: bool, cs: seq<Callback>)
    requires SameButThinking(a, b)
    ensures SameButThinking(RunCallbacks(a, Switches(true, enable), cs), RunCallbacks(b, Switches(false, enable), cs))
    decreases |cs|
  {
    if cs != [] {
      StepSame(a, b, enable, cs[0]);
      HidingThinking(Step(a, Switches(true, enable), cs[0]), Step(b, Switches(false, enable), cs[0]), enable, cs[1..]);
    }
  }

  // ----- one call against the parser's run -----

  /** The token callbacks of one call, each with the provider's own reasoning, "" where there is none. */
  function TokenCallbacks(tokens: seq<string>, sides: seq<string>): seq<Callback>
    requires |sides| == |tokens|
  {
    seq(|tokens|, i requires 0 <= i < |tokens| => NewToken(tokens[i], sides[i]))
  }

  /** The reasoning of a call: what the provider sends beside each token, then what the token brings out of the text. */
  function Thoughts(buf: string, inside: bool, tokens: seq<string>, sides: seq<string>): string
    requires |sides| == |tokens|
    decreases |tokens|
  {
    if tokens == [] then Only(buf, inside).rsn
    else
      var s := Scan(buf + tokens[0], inside);
      (sides[0] + s.out.rsn) + Thoughts(s.buf, s.inside, tokens[1..], sides[1..])
  }

  /** The reasoning a handler takes up: none when thinking is disabled. */
  function Heard(w: Switches, text: string): string {
    if w.enable then text else ""
  }

  lemma ReasoningJoins(s: State, w: Switches, text: string)
    ensures var t := if w.enable then EmitReasoning(s, w, text) else s;
            Join(t.chunks) == Join(s.chunks) + Heard(w, text) &&
            (t.chunks == [] <==> s.chunks == [] && Heard(w, text) == "") &&
            t.allVisible == s.allVisible && t.visChunks == s.visChunks && t.steps == s.steps &&
            t.buf == s.buf && t.inside == s.inside
  {
    JoinSnoc(s.chunks, text);
    NilRight(Join(s.chunks));
  }

  lemma VisibleJoins(s: State, text: string)
    ensures var t := EmitVisible(s, text);
            Join(t.allVisible) == Join(s.allVisible) + text && t.chunks == s.chunks && t.steps == s.steps &&
            t.buf == s.buf && t.inside == s.inside
  {
    JoinSnoc(s.allVisible, text);
    NilRight(Join(s.allVisible));
  }

  lemma OneTokenJoins(s: State, w: Switches, token: string, side: string)
    requires Settled(s.buf, s.inside)
    ensures var out, t := Scan(s.buf + token, s.inside), OnNewToken(s, w, token, side);
            var heard := Heard(w, side + out.out.rsn);
            t.buf == out.buf && t.inside == out.inside && t.steps == s.steps &&
            Join(t.allVisible) == Join(s.allVisible) + out.out.vis &&
            Join(t.chunks) == Join(s.chunks) + heard && (t.chunks == [] <==> s.chunks == [] && heard == "")
  {
    var out := Scan(s.buf + token, s.inside);
    ReasoningJoins(s, w, side);
    var s1 := if w.enable then EmitReasoning(s, w, side) else s;
    if token == "" {
      NilRight(s.buf);
      NilRight(Join(s.allVisible));
      NilRight(side);
      assert s.buf[..0] == "" && s.buf[0..] == s.buf;
    } else {
      var s2 := s1.(buf := out.buf, inside := out.inside);
      VisibleJoins(s2, out.out.vis);
      ReasoningJoins(EmitVisible(s2, out.out.vis), w, out.out.rsn);
      Assoc(Join(s.chunks), Heard(w, side), Heard(w, out.out.rsn));
    }
  }

  /** What a call records: its reasoning as one step, or the provider's final reasoning when there was none. */
  function Recorded(s: State, w: Switches, thoughts: string, final: string): seq<string> {
    var heard := Heard(w, thoughts);
    if s.chunks != [] || heard != "" then s.steps + [Join(s.chunks) + heard]
    else if Heard(w, final) != "" then s.steps + [final]
    else s.steps
  }

  /** Whatever the switches and the provider's own reasoning: the call shows the visible part of the parser's run, and
      records the provider's and the text's reasoning in the order they came. */
  lemma {:induction false} CallCollects(s: State, w: Switches, tokens: seq<string>, sides: seq<string>, final: string)
    requires |sides| == |tokens| && Settled(s.buf, s.inside)
    ensures var t := RunCallbacks(s, w, TokenCallbacks(tokens, sides) + [LlmEnd(final)]);
            Join(t.allVisible) == Join(s.allVisible) + Run(s.buf, s.inside, tokens).vis &&
            t.steps == Recorded(s, w, Thoughts(s.buf, s.inside, tokens, sides), final)
    decreases |tokens|
  {
    RunOneCallback(s, w, tokens, sides, final);
    if tokens == [] {
      EndCollects(s, w, final);
    } else {
      var out := Scan(s.buf + tokens[0], s.inside);
      var t := OnNewToken(s, w, tokens[0], sides[0]);
      OneTokenJoins(s, w, tokens[0], sides[0]);
      ScanSettles(s.buf + tokens[0], s.inside);
      CallCollects(t, w, tokens[1..], sides[1..], final);
      Assoc(Join(s.allVisible), out.out.vis, Run(out.buf, out.inside, tokens[1..]).vis);
      RecordedStep(s, t, w, sides[0] + out.out.rsn, Thoughts(out.buf, out.inside, tokens[1..], sides[1..]), final);
    }
  }

  lemma RecordedStep(s: State, t: State, w: Switches, now: string, later: string, final: string)
    requires t.steps == s.steps && Join(t.chunks) == Join(s.chunks) + Heard(w, now)
    requires t.chunks == [] <==> s.chunks == [] && Heard(w, now) == ""
    ensures Recorded(t, w, later, final) == Recorded(s, w, now + later, final)
  {
    Assoc(Join(s.chunks), Heard(w, now), Heard(w, later));
    NilLeft(later);
  }

  lemma RunOneCallback(s: State, w: Switches, tokens: seq<string>, sides: seq<string>, final: string)
    requires |sides| == |tokens|
    ensures RunCallbacks(s, w, TokenCallbacks(tokens, sides) + [LlmEnd(final)]) ==
            if tokens == [] then OnLlmEnd(s, w, final)
            else RunCallbacks(OnNewToken(s, w, tokens[0], sides[0]), w,
                              TokenCallbacks(tokens[1..], sides[1..]) + [LlmEnd(final)])
  {
    var cs := TokenCallbacks(tokens, sides) + [LlmEnd(final)];
    if tokens == [] {
      assert cs[0] == LlmEnd(final) && cs[1..] == [];
      assert RunCallbacks(s, w, cs) == RunCallbacks(OnLlmEnd(s, w, final), w, []);
    } else {
      assert cs[1..] == TokenCallbacks(tokens[1..], sides[1..]) + [LlmEnd(final)];
    }
  }

  lemma EndCollects(s: State, w: Switches, final: string)
    ensures var out, t := Only(s.buf, s.inside), OnLlmEnd(s, w, final);
            Join(t.allVisible) == Join(s.allVisible) + out.vis && t.steps == Recorded(s, w, out.rsn, final)
  {
    var out := Only(s.buf, s.inside);
    var s1 := s.(buf := "", inside := false);
    ReasoningJoins(s1, w, out.rsn);
    VisibleJoins(if w.enable then EmitReasoning(s1, w, out.rsn) else s1, out.vis);
    var s3 := TakeNarration(EmitFlushed(s, w));
    ReasoningJoins(s3, w, final);
    NilLeft(final);
  }

  lemma {:induction false} ThoughtsAlone(buf: string, inside: bool, tokens: seq<string>, sides: seq<string>)
    requires |sides| == |tokens| && forall i :: 0 <= i < |sides| ==> sides[i] == ""
    ensures Thoughts(buf, inside, tokens, sides) == Run(buf, inside, tokens).rsn
    decreases |tokens|
  {
    if tokens != [] {
      var s := Scan(buf + tokens[0], inside);
      ThoughtsAlone(s.buf, s.inside, tokens[1..], sides[1..]);
      NilLeft(s.out.rsn);
    }
  }

  /** However a clean text is cut into tokens, the call shows its visible part; and with thinking enabled and nothing
      sent beside the tokens it records one step holding all the text's reasoning. */
  lemma {:induction false} CallOnCleanText(s: State, w: Switches, tokens: seq<string>, sides: seq<string>,
      final: string)
    requires |sides| == |tokens| && s.buf == "" && !s.inside && s.chunks == [] && Clean(Join(tokens), false, false)
    ensures var out := Online(Join(tokens), false);
            var t := RunCallbacks(s, w, TokenCallbacks(tokens, sides) + [LlmEnd(final)]);
            Join(t.allVisible) == Join(s.allVisible) + out.vis && (!w.enable ==> t.steps == s.steps) &&
            (w.enable && (forall i :: 0 <= i < |sides| ==> sides[i] == "") ==>
               t.steps == (if out.rsn != "" then s.steps + [out.rsn]
                           else if final != "" then s.steps + [final] else s.steps))
  {
    assert Settled("", false);
    CallCollects(s, w, tokens, sides, final);
    ChunkInvariance(Join(tokens), tokens);
    NilLeft(Online(Join(tokens), false).rsn);
    if forall i :: 0 <= i < |sides| ==> sides[i] == "" {
      ThoughtsAlone("", false, tokens, sides);
    }
  }
}
