/** What the stream handler puts on its queue, over any run of callbacks and over one call. */
module TokenEvents {
  import opened Text
  import opened Lists
  import opened ThinkingParser
  import opened ThinkingProperties
  import opened ThinkingRuns
  import opened TokenStream

  /** The texts of the visible token events, in order. */
  function TokenTexts(es: seq<Event>): seq<string> {
    if es == [] then [] else (if es[0].Token? then [es[0].text] else []) + TokenTexts(es[1..])
  }

  function ReasoningTexts(es: seq<Event>): seq<string> {
    if es == [] then [] else (if es[0].ReasoningToken? then [es[0].text] else []) + ReasoningTexts(es[1..])
  }

  function EndTexts(es: seq<Event>): seq<string> {
    if es == [] then [] else (if es[0].ThinkingEnd? then [es[0].text] else []) + EndTexts(es[1..])
  }

  predicate NoneEmpty(es: seq<Event>) {
    forall k :: 0 <= k < |es| ==> es[k] != Token("") && es[k] != ReasoningToken("")
  }

  predicate OnlyTokens(es: seq<Event>) {
    forall k :: 0 <= k < |es| ==> es[k].Token?
  }

  lemma {:induction false} TextsAppend(a: seq<Event>, b: seq<Event>)
    ensures TokenTexts(a + b) == TokenTexts(a) + TokenTexts(b)
    ensures ReasoningTexts(a + b) == ReasoningTexts(a) + ReasoningTexts(b)
    ensures EndTexts(a + b) == EndTexts(a) + EndTexts(b)
  {
    if a == [] {
      NilSeq(b);
      NilSeq(TokenTexts(b));
      NilSeq(ReasoningTexts(b));
      NilSeq(EndTexts(b));
    } else {
      TextsAppend(a[1..], b);
      assert (a + b)[1..] == a[1..] + b;
      AssocSeq(if a[0].Token? then [a[0].text] else [], TokenTexts(a[1..]), TokenTexts(b));
      AssocSeq(if a[0].ReasoningToken? then [a[0].text] else [], ReasoningTexts(a[1..]), ReasoningTexts(b));
      AssocSeq(if a[0].ThinkingEnd? then [a[0].text] else [], EndTexts(a[1..]), EndTexts(b));
    }
  }

  /** The events es are put on the queue, and the collected texts grow by exactly what they carry: the visible text by
      the token events, and with thinking shown the reasoning by the reasoning events and the steps by the block ends.
      With thinking hidden there are only token events. */
  predicate Puts(s: State, t: State, w: Switches, es: seq<Event>) {
    t.queue == s.queue + es && t.allVisible == s.allVisible + TokenTexts(es) && NoneEmpty(es) &&
    if w.show then t.allReasoning == s.allReasoning + ReasoningTexts(es) && t.steps == s.steps + EndTexts(es)
    else OnlyTokens(es)
  }

  lemma PutsNothing(s: State, t: State, w: Switches)
    requires t.queue == s.queue && t.allVisible == s.allVisible
    requires t.allReasoning == s.allReasoning && t.steps == s.steps
    ensures Puts(s, t, w, [])
  {
    NilSeq(s.queue);
    NilSeq(s.allVisible);
    NilSeq(s.allReasoning);
    NilSeq(s.steps);
  }

  lemma PutsBoth(s: State, t: State, u: State, w: Switches, a: seq<Event>, b: seq<Event>)
    requires Puts(s, t, w, a) && Puts(t, u, w, b)
    ensures Puts(s, u, w, a + b)
  {
    TextsAppend(a, b);
    AssocSeq(s.queue, a, b);
    AssocSeq(s.allVisible, TokenTexts(a), TokenTexts(b));
    if w.show {
      AssocSeq(s.allReasoning, ReasoningTexts(a), ReasoningTexts(b));
      AssocSeq(s.steps, EndTexts(a), EndTexts(b));
    }
  }

  lemma TextsOfOne(e: Event)
    ensures TokenTexts([e]) == if e.Token? then [e.text] else []
    ensures ReasoningTexts([e]) == if e.ReasoningToken? then [e.text] else []
    ensures EndTexts([e]) == if e.ThinkingEnd? then [e.text] else []
  {
    assert [e][1..] == [];
  }

  /** The narration of the call in progress grows by the token events too. */
  predicate Narrates(s: State, t: State, w: Switches, es: seq<Event>) {
    Puts(s, t, w, es) && t.visChunks == s.visChunks + TokenTexts(es) && t.pendingVisible == s.pendingVisible &&
    t.pendingThinking == s.pendingThinking && (w.show ==> t.chunks == s.chunks + ReasoningTexts(es))
  }

  lemma NarratesNothing(s: State, w: Switches)
    ensures Narrates(s, s, w, [])
  {
    PutsNothing(s, s, w);
    NilSeq(s.visChunks);
    NilSeq(s.chunks);
  }

  lemma NarratesBoth(s: State, t: State, u: State, w: Switches, a: seq<Event>, b: seq<Event>)
    requires Narrates(s, t, w, a) && Narrates(t, u, w, b)
    ensures Narrates(s, u, w, a + b)
  {
    PutsBoth(s, t, u, w, a, b);
    TextsAppend(a, b);
    AssocSeq(s.visChunks, TokenTexts(a), TokenTexts(b));
    if w.show {
      AssocSeq(s.chunks, ReasoningTexts(a), ReasoningTexts(b));
    }
  }

  /** Only the parser's buffer differs. */
  lemma BufferAside(s: State, t: State, w: Switches, es: seq<Event>, buf: string, inside: bool)
    requires Narrates(s.(buf := buf, inside := inside), t, w, es)
    ensures Narrates(s, t, w, es)
  {
  }

  lemma ReasoningPuts(s: State, w: Switches, text: string) returns (es: seq<Event>)
    ensures Narrates(s, EmitReasoning(s, w, text), w, es)
  {
    NilSeq(s.queue);
    NilSeq(s.allVisible);
    NilSeq(s.visChunks);
    NilSeq(s.steps);
    NilSeq(s.allReasoning);
    NilSeq(s.chunks);
    es := [];
    if text != "" && w.show {
      var start, token := if s.started then [] else [ThinkingStart], [ReasoningToken(text)];
      es := start + token;
      AssocSeq(s.queue, start, token);
      TextsAppend(start, token);
      TextsOfOne(ThinkingStart);
      TextsOfOne(ReasoningToken(text));
    }
  }

  /** The reasoning a handler takes up, if thinking is enabled. */
  function MaybeReasoning(s: State, w: Switches, text: string): State {
    if w.enable then EmitReasoning(s, w, text) else s
  }

  lemma MaybeReasoningPuts(s: State, w: Switches, text: string) returns (es: seq<Event>)
    ensures Narrates(s, MaybeReasoning(s, w, text), w, es)
  {
    if w.enable {
      es := ReasoningPuts(s, w, text);
    } else {
      es := [];
      NarratesNothing(s, w);
    }
  }

  lemma VisiblePuts(s: State, w: Switches, text: string) returns (es: seq<Event>)
    ensures Narrates(s, EmitVisible(s, text), w, es)
  {
    if text == "" {
      es := [];
      NarratesNothing(s, w);
    } else {
      es := [Token(text)];
      TextsOfOne(Token(text));
      NilSeq(s.allReasoning);
      NilSeq(s.steps);
      NilSeq(s.chunks);
    }
  }

  lemma ScannedPuts(s: State, w: Switches, token: string) returns (es: seq<Event>)
    ensures var out := Scan(s.buf + token, s.inside);
            var t := EmitVisible(s.(buf := out.buf, inside := out.inside), out.out.vis);
            Narrates(s, MaybeReasoning(t, w, out.out.rsn), w, es)
  {
    var out := Scan(s.buf + token, s.inside);
    var t := EmitVisible(s.(buf := out.buf, inside := out.inside), out.out.vis);
    var e1 := VisiblePuts(s.(buf := out.buf, inside := out.inside), w, out.out.vis);
    BufferAside(s, t, w, e1, out.buf, out.inside);
    var e2 := MaybeReasoningPuts(t, w, out.out.rsn);
    NarratesBoth(s, t, MaybeReasoning(t, w, out.out.rsn), w, e1, e2);
    es := e1 + e2;
  }

  lemma TokenPuts(s: State, w: Switches, token: string, side: string) returns (es: seq<Event>)
    ensures Narrates(s, OnNewToken(s, w, token, side), w, es)
  {
    var t := MaybeReasoning(s, w, side);
    es := MaybeReasoningPuts(s, w, side);
    if token != "" {
      var later := ScannedPuts(t, w, token);
      NarratesBoth(s, t, OnNewToken(s, w, token, side), w, es, later);
      es := es + later;
    }
  }

  lemma FlushPuts(s: State, w: Switches) returns (es: seq<Event>)
    ensures Narrates(s, EmitFlushed(s, w), w, es)
  {
    var out := Only(s.buf, s.inside);
    var s1 := s.(buf := "", inside := false);
    var t := MaybeReasoning(s1, w, out.rsn);
    var e1 := MaybeReasoningPuts(s1, w, out.rsn);
    BufferAside(s, t, w, e1, "", false);
    var e2 := VisiblePuts(t, w, out.vis);
    NarratesBoth(s, t, EmitFlushed(s, w), w, e1, e2);
    es := e1 + e2;
  }

  /** With thinking shown the call's step is what its reasoning events carry, after what was there before. */
  predicate StepIs(s: State, t: State, w: Switches, es: seq<Event>) {
    w.show ==>
      var whole := s.chunks + ReasoningTexts(es);
      t.steps == s.steps + if whole != [] then [Join(whole)] else []
  }

  /** A call has ended: what it puts, its narration, its pending thinking and its step. */
  predicate Ends(s: State, t: State, w: Switches, es: seq<Event>) {
    Puts(s, t, w, es) && NarrationIs(s, t, es) && PendingIs(s, t) && StepIs(s, t, w, es)
  }

  /** The provider's final reasoning, taken up when the call had none of its own. */
  function LateReasoning(s: State, w: Switches, final: string): State {
    if s.chunks == [] && w.enable then EmitReasoning(s, w, final) else s
  }

  lemma LatePuts(s: State, w: Switches, final: string) returns (es: seq<Event>)
    ensures var t := LateReasoning(s, w, final);
            Puts(s, t, w, es) && TokenTexts(es) == [] && t.visChunks == s.visChunks &&
            t.pendingVisible == s.pendingVisible && t.pendingThinking == s.pendingThinking && t.steps == s.steps &&
            (w.show ==> t.chunks == s.chunks + ReasoningTexts(es))
  {
    NilSeq(s.chunks);
    if s.chunks == [] && w.enable {
      es := ReasoningPuts(s, w, final);
      assert LateReasoning(s, w, final).visChunks == s.visChunks;
      assert |s.visChunks + TokenTexts(es)| == |s.visChunks|;
    } else {
      es := [];
      PutsNothing(s, s, w);
    }
  }

  /** The pending narration becomes the stripped text of the call's tokens unless that is blank. */
  predicate NarrationIs(s: State, t: State, es: seq<Event>) {
    var narration := Strip(Join(s.visChunks + TokenTexts(es)));
    t.visChunks == [] && t.pendingVisible == if narration != "" then narration else s.pendingVisible
  }

  lemma FlushNarrates(s: State, w: Switches) returns (es: seq<Event>)
    ensures var t := TakeNarration(EmitFlushed(s, w));
            Puts(s, t, w, es) && NarrationIs(s, t, es) &&
            t.pendingThinking == s.pendingThinking && t.steps == s.steps &&
            (w.show ==> t.chunks == s.chunks + ReasoningTexts(es))
  {
    es := FlushPuts(s, w);
  }

  lemma EndPuts(s: State, w: Switches, final: string) returns (es: seq<Event>)
    ensures Ends(s, OnLlmEnd(s, w, final), w, es)
  {
    var s3 := TakeNarration(EmitFlushed(s, w));
    var e1 := FlushNarrates(s, w);
    var e2 := LatePuts(s3, w, final);
    var s4 := LateReasoning(s3, w, final);
    var e3 := ClosePuts(s4, w);
    PutsBoth(s, s3, s4, w, e1, e2);
    PutsBoth(s, s4, CloseBlock(s4, w), w, e1 + e2, e3);
    TextsAppend(e1, e2);
    TextsAppend(e1 + e2, e3);
    NilSeq(TokenTexts(e1));
    es := e1 + e2 + e3;
    assert TokenTexts(es) == TokenTexts(e1);
    if w.show {
      AssocSeq(s.chunks, ReasoningTexts(e1), ReasoningTexts(e2));
      NilSeq(ReasoningTexts(e1 + e2));
      assert s4.chunks == s.chunks + ReasoningTexts(es);
    }
  }

  /** The pending thinking is the last step recorded since, if any was. */
  predicate PendingIs(s: State, t: State) {
    s.steps <= t.steps &&
    t.pendingThinking == if |t.steps| > |s.steps| then t.steps[|t.steps| - 1] else s.pendingThinking
  }

  lemma ClosePuts(s: State, w: Switches) returns (es: seq<Event>)
    ensures Puts(s, CloseBlock(s, w), w, es) && TokenTexts(es) == [] && PendingIs(s, CloseBlock(s, w))
    ensures ReasoningTexts(es) == []
    ensures CloseBlock(s, w).steps == s.steps + if s.chunks != [] then [Join(s.chunks)] else []
  {
    NilSeq(s.queue);
    NilSeq(s.allVisible);
    NilSeq(s.steps);
    NilSeq(s.allReasoning);
    es := [];
    if s.chunks != [] && w.show {
      es := [ThinkingEnd(Join(s.chunks))];
      TextsOfOne(es[0]);
    }
  }

  // ----- whole runs -----

  lemma StepPuts(s: State, w: Switches, c: Callback) returns (es: seq<Event>)
    ensures Puts(s, Step(s, w, c), w, es) && PendingIs(s, Step(s, w, c))
  {
    match c
    case NewToken(token, side) =>
      es := TokenPuts(s, w, token, side);
      StepsStay(s, w, token, side);
    case LlmEnd(final) =>
      es := EndPuts(s, w, final);
  }

  lemma StepsStay(s: State, w: Switches, token: string, side: string)
    ensures OnNewToken(s, w, token, side).steps == s.steps
  {
  }

  lemma PendingBoth(s: State, t: State, u: State)
    requires PendingIs(s, t) && PendingIs(t, u)
    ensures PendingIs(s, u)
  {
  }

  /** Over any run of callbacks from any state: what is queued is what is collected. The visible texts collected are the
      texts of the token events; with thinking shown the reasoning collected is that of the reasoning events and the
      steps recorded are the texts of the block ends; with thinking hidden only token events are queued. No token event
      is empty, and the pending thinking is the last step. */
  lemma {:induction false} RunPuts(s: State, w: Switches, cs: seq<Callback>) returns (es: seq<Event>)
    ensures Puts(s, RunCallbacks(s, w, cs), w, es) && PendingIs(s, RunCallbacks(s, w, cs))
    decreases |cs|
  {
    if cs == [] {
      es := [];
      PutsNothing(s, s, w);
    } else {
      var t := Step(s, w, cs[0]);
      var first := StepPuts(s, w, cs[0]);
      var later := RunPuts(t, w, cs[1..]);
      PutsBoth(s, t, RunCallbacks(t, w, cs[1..]), w, first, later);
      PendingBoth(s, t, RunCallbacks(t, w, cs[1..]));
      es := first + later;
    }
  }

  // ----- one call -----

  lemma {:induction false} CallNarrates(s: State, w: Switches, tokens: seq<string>, sides: seq<string>, final: string)
      returns (es: seq<Event>)
    requires |sides| == |tokens|
    ensures Ends(s, RunCallbacks(s, w, TokenCallbacks(tokens, sides) + [LlmEnd(final)]), w, es)
    decreases |tokens|
  {
    RunOneCallback(s, w, tokens, sides, final);
    if tokens == [] {
      es := EndPuts(s, w, final);
    } else {
      var t := OnNewToken(s, w, tokens[0], sides[0]);
      var u := RunCallbacks(t, w, TokenCallbacks(tokens[1..], sides[1..]) + [LlmEnd(final)]);
      var first := TokenPuts(s, w, tokens[0], sides[0]);
      StepsStay(s, w, tokens[0], sides[0]);
      var later := CallNarrates(t, w, tokens[1..], sides[1..], final);
      NarrationMore(s, t, u, w, first, later);
      es := first + later;
    }
  }

  lemma NarrationMore(s: State, t: State, u: State, w: Switches, a: seq<Event>, b: seq<Event>)
    requires Narrates(s, t, w, a) && t.steps == s.steps && Ends(t, u, w, b)
    ensures Ends(s, u, w, a + b)
  {
    PutsBoth(s, t, u, w, a, b);
    TextsAppend(a, b);
    AssocSeq(s.visChunks, TokenTexts(a), TokenTexts(b));
    if w.show {
      AssocSeq(s.chunks, ReasoningTexts(a), ReasoningTexts(b));
    }
  }

  /** The reasoning a call brings: its own, or else the provider's final one. */
  function Brought(s: State, w: Switches, thoughts: string, final: string): string {
    if s.chunks == [] && Heard(w, thoughts) == "" then Heard(w, final) else Heard(w, thoughts)
  }

  /** What a call shows, from the visible part vis of the parser's run and the reasoning it brings. */
  predicate Shown(s: State, t: State, w: Switches, es: seq<Event>, vis: string, brought: string) {
    var any, whole := s.chunks != [] || brought != "", Join(s.chunks) + brought;
    t.queue == s.queue + es && NoneEmpty(es) && Join(TokenTexts(es)) == vis && NarrationIs(s, t, es) &&
    (if w.show then Join(ReasoningTexts(es)) == brought && EndTexts(es) == if any then [whole] else []
     else OnlyTokens(es)) &&
    t.pendingThinking == if any then whole else s.pendingThinking
  }

  /** One call, in whatever state, cut into whatever tokens: the token events it queues carry exactly the visible part
      of the parser's run. With thinking shown the reasoning events carry the reasoning taken up, and one block end
      carries all of the call's reasoning if there is any; with thinking hidden nothing else is queued. The pending
      thinking and narration are those of the call, or the earlier ones when it has none. */
  lemma CallQueues(s: State, w: Switches, tokens: seq<string>, sides: seq<string>, final: string)
      returns (es: seq<Event>)
    requires |sides| == |tokens| && Settled(s.buf, s.inside)
    ensures Shown(s, RunCallbacks(s, w, TokenCallbacks(tokens, sides) + [LlmEnd(final)]), w, es,
                  Run(s.buf, s.inside, tokens).vis,
                  Brought(s, w, Thoughts(s.buf, s.inside, tokens, sides), final))
  {
    es := CallNarrates(s, w, tokens, sides, final);
    CallCollects(s, w, tokens, sides, final);
    var t := RunCallbacks(s, w, TokenCallbacks(tokens, sides) + [LlmEnd(final)]);
    var thoughts := Thoughts(s.buf, s.inside, tokens, sides);
    RecordedIs(s, w, thoughts, final);
    EndsShown(s, t, w, es, Run(s.buf, s.inside, tokens).vis, Brought(s, w, thoughts, final));
  }

  lemma RecordedIs(s: State, w: Switches, thoughts: string, final: string)
    ensures var brought := Brought(s, w, thoughts, final);
            Recorded(s, w, thoughts, final) ==
            s.steps + if s.chunks != [] || brought != "" then [Join(s.chunks) + brought] else []
  {
    NilSeq(s.steps);
    NilLeft(final);
  }

  lemma EndsShown(s: State, t: State, w: Switches, es: seq<Event>, vis: string, brought: string)
    requires Ends(s, t, w, es) && Join(t.allVisible) == Join(s.allVisible) + vis
    requires t.steps == s.steps + if s.chunks != [] || brought != "" then [Join(s.chunks) + brought] else []
    ensures Shown(s, t, w, es, vis, brought)
  {
    JoinAppend(s.allVisible, TokenTexts(es));
    Cancel(Join(s.allVisible), Join(TokenTexts(es)), vis);
    var any := s.chunks != [] || brought != "";
    if w.show {
      var all := s.chunks + ReasoningTexts(es);
      CancelSeq(s.steps, EndTexts(es), if any then [Join(s.chunks) + brought] else []);
      CancelSeq(s.steps, if all != [] then [Join(all)] else [], if any then [Join(s.chunks) + brought] else []);
      JoinAppend(s.chunks, ReasoningTexts(es));
      if any {
        Cancel(Join(s.chunks), Join(ReasoningTexts(es)), brought);
      }
    }
  }

  lemma Cancel(a: string, b: string, c: string)
    requires a + b == a + c
    ensures b == c
  {
    assert (a + b)[|a|..] == b && (a + c)[|a|..] == c;
  }

  lemma CancelSeq(a: seq<string>, b: seq<string>, c: seq<string>)
    requires a + b == a + c
    ensures b == c
  {
    assert (a + b)[|a|..] == b && (a + c)[|a|..] == c;
  }
}
