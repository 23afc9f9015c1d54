/** Replacing old tool results by short references, one pass at a time and over whole runs. */
module ObservationMasking {
  import opened Options
  import opened Lists
  import opened Messages

  const KEEP_LAST := 3
  const MIN_STEPS := 4
  const MIN_TOOLS := 3
  const KEEP_TABLE_ROWS := 5

  /** What is known of an artifact: its kind, its row count if it is a table, its short reference. */
  datatype Handle = Handle(kind: string, rows: Option<int>, ref: string)

  /** `tool_call_id_to_handle`, `tool_call_id_to_step` and the current step. */
  datatype Context = Context(handles: map<string, seq<Handle>>, steps: map<string, int>, current: int)

  predicate HasKind(hs: seq<Handle>, kind: string) {
    exists k :: 0 <= k < |hs| && hs[k].kind == kind
  }

  predicate HasSmallTable(hs: seq<Handle>) {
    exists k :: 0 <= k < |hs| && hs[k].kind == "table" && hs[k].rows.Some? && hs[k].rows.value <= KEEP_TABLE_ROWS
  }

  /** The call's step is known and at least three steps old. */
  predicate Old(c: Context, id: string) {
    id in c.steps && c.current - c.steps[id] >= KEEP_LAST
  }

  predicate OldTable(c: Context, id: string) {
    id in c.handles && HasKind(c.handles[id], "table") && Old(c, id)
  }

  /** No table old enough to be masked is more recent. */
  predicate LatestOldTable(c: Context, id: string)
    requires id in c.steps
  {
    forall other :: other in c.handles && OldTable(c, other) ==> c.steps[other] <= c.steps[id]
  }

  predicate Exempt(name: string) {
    name == "planner_tool" || name == "get_tool_instructions"
  }

  predicate MaskableId(c: Context, id: string) {
    id in c.handles && c.handles[id] != [] && Old(c, id) &&
    !HasSmallTable(c.handles[id]) && !HasKind(c.handles[id], "error") &&
    !(HasKind(c.handles[id], "table") && LatestOldTable(c, id))
  }

  predicate Maskable(m: Message, c: Context, masked: set<string>) {
    m.Tool? && !Exempt(m.name) && m.callId !in masked && MaskableId(c, m.callId)
  }

  function Refs(hs: seq<Handle>): string {
    if hs == [] then "" else if |hs| == 1 then hs[0].ref else hs[0].ref + "\n" + Refs(hs[1..])
  }

  /** The replacement carries the call id but no tool name. */
  function MaskedMessage(m: Message, c: Context): Message
    requires m.Tool? && m.callId in c.handles
  {
    Tool(m.uid, m.callId, "", Refs(c.handles[m.callId]))
  }

  datatype Pass = Pass(messages: seq<Message>, masked: set<string>)

  /** `_apply_observation_masking` */
  function MaskPass(ms: seq<Message>, c: Context, masked: set<string>): Pass
    decreases |ms|
  {
    if ms == [] then Pass([], masked)
    else if Maskable(ms[0], c, masked) then
      var rest := MaskPass(ms[1..], c, masked + {ms[0].callId});
      Pass([MaskedMessage(ms[0], c)] + rest.messages, rest.masked)
    else
      var rest := MaskPass(ms[1..], c, masked);
      Pass([ms[0]] + rest.messages, rest.masked)
  }

  method ApplyObservationMasking(messages: array<Message>, c: Context, masked: set<string>) returns (now: set<string>)
    modifies messages
    ensures Pass(messages[..], now) == MaskPass(old(messages[..]), c, masked)
  {
    now := masked;
    ghost var before := messages[..];
    for i := 0 to messages.Length
      invariant messages[i..] == before[i..]
      invariant var rest := MaskPass(before[i..], c, now);
                MaskPass(before, c, masked) == Pass(messages[..i] + rest.messages, rest.masked)
    {
      var m := messages[i];
      ghost var done, rest := messages[..i], before[i..];
      assert rest[0] == m && rest[1..] == before[i + 1..];
      ghost var later := MaskPass(rest[1..], c, if Maskable(m, c, now) then now + {m.callId} else now);
      if m.Tool? && !Exempt(m.name) && m.callId !in now && MaskableId(c, m.callId) {
        messages[i] := MaskedMessage(m, c);
        now := now + {m.callId};
      }
      AssocSeq(done, [messages[i]], later.messages);
      assert messages[..i + 1] == done + [messages[i]];
    }
    assert messages[..messages.Length] == messages[..];
    NilSeq(messages[..]);
  }

  // ----- one pass -----

  lemma {:induction false} PassKeepsShape(ms: seq<Message>, c: Context, masked: set<string>)
    ensures var r := MaskPass(ms, c, masked); SameShape(ms, r.messages) && masked <= r.masked
  {
    if ms != [] {
      var hit := Maskable(ms[0], c, masked);
      var next := if hit then masked + {ms[0].callId} else masked;
      PassKeepsShape(ms[1..], c, next);
      var r, rest := MaskPass(ms, c, masked), MaskPass(ms[1..], c, next);
      forall i | 0 <= i < |ms|
        ensures SameSlot(ms[i], r.messages[i])
      {
        if i > 0 {
          assert r.messages[i] == rest.messages[i - 1];
          assert SameSlot(ms[1..][i - 1], rest.messages[i - 1]);
        }
      }
    }
  }

  /** What one pass does to each position: replace it by its reference, for an id that deserves it, or nothing. */
  lemma {:induction false} PassByPosition(ms: seq<Message>, c: Context, masked: set<string>, i: nat)
    requires i < |ms|
    ensures var r := MaskPass(ms, c, masked);
            |r.messages| == |ms| &&
            (r.messages[i] == ms[i] ||
             (Maskable(ms[i], c, masked) && ms[i].callId in r.masked && r.messages[i] == MaskedMessage(ms[i], c)))
    ensures forall id :: id in MaskPass(ms, c, masked).masked ==> id in masked || MaskableId(c, id)
  {
    var hit := Maskable(ms[0], c, masked);
    var next := if hit then masked + {ms[0].callId} else masked;
    var rest := MaskPass(ms[1..], c, next);
    PassKeepsShape(ms[1..], c, next);
    if |ms| > 1 {
      PassByPosition(ms[1..], c, next, if i == 0 then 0 else i - 1);
    }
    if i > 0 {
      assert MaskPass(ms, c, masked).messages[i] == rest.messages[i - 1];
    }
  }

  predicate NoneMaskable(ms: seq<Message>, c: Context, masked: set<string>) {
    forall i :: 0 <= i < |ms| ==> !Maskable(ms[i], c, masked)
  }

  lemma {:induction false} NothingToMask(ms: seq<Message>, c: Context, masked: set<string>)
    requires NoneMaskable(ms, c, masked)
    ensures MaskPass(ms, c, masked) == Pass(ms, masked)
  {
    if ms != [] {
      assert !Maskable(ms[0], c, masked);
      NothingToMask(ms[1..], c, masked);
    }
  }

  lemma {:induction false} PassLeavesNothing(ms: seq<Message>, c: Context, masked: set<string>)
    ensures var r := MaskPass(ms, c, masked); NoneMaskable(r.messages, c, r.masked)
  {
    if ms != [] {
      var hit := Maskable(ms[0], c, masked);
      var next := if hit then masked + {ms[0].callId} else masked;
      var r, rest := MaskPass(ms, c, masked), MaskPass(ms[1..], c, next);
      PassLeavesNothing(ms[1..], c, next);
      PassKeepsShape(ms[1..], c, next);
      forall i | 0 <= i < |r.messages|
        ensures !Maskable(r.messages[i], c, r.masked)
      {
        if i > 0 {
          assert r.messages[i] == rest.messages[i - 1];
        }
      }
    }
  }

  /** A second pass at the same step changes nothing. */
  lemma SecondPassIsIdle(ms: seq<Message>, c: Context, masked: set<string>)
    ensures var r := MaskPass(ms, c, masked); MaskPass(r.messages, c, r.masked) == r
  {
    PassLeavesNothing(ms, c, masked);
    var r := MaskPass(ms, c, masked);
    NothingToMask(r.messages, c, r.masked);
  }

  // ----- whole runs -----

  datatype Event = Arrive(msg: Message, handles: seq<Handle>) | Mask

  datatype RunState = RunState(messages: seq<Message>, originals: seq<Message>, ctx: Context, masked: set<string>)

  const START := RunState([], [], Context(map[], map[], 0), {})

  /** A result arrives at the current step. */
  function Record(c: Context, id: string, hs: seq<Handle>): Context {
    Context(if hs == [] then c.handles else c.handles[id := hs], c.steps[id := c.current], c.current + 1)
  }

  /** A new result is appended and recorded under its stripped id at the current step, then the step advances. */
  function Next(s: RunState, e: Event): RunState {
    match e
    case Arrive(m, hs) =>
      RunState(s.messages + [m], s.originals + [m], Record(s.ctx, ResultId(m), hs), s.masked)
    case Mask =>
      var p := MaskPass(s.messages, s.ctx, s.masked);
      s.(messages := p.messages, masked := p.masked)
  }

  function RunMasking(es: seq<Event>): RunState
    decreases |es|
  {
    if es == [] then START else Next(RunMasking(es[..|es| - 1]), es[|es| - 1])
  }

  /** Every result comes with a call id not used before in the run. */
  predicate FreshIds(es: seq<Event>)
    decreases |es|
  {
    es == [] ||
    (FreshIds(es[..|es| - 1]) &&
     (es[|es| - 1].Arrive? ==>
        es[|es| - 1].msg.Tool? && ResultId(es[|es| - 1].msg) !in RunMasking(es[..|es| - 1]).ctx.steps))
  }

  /** An id that may be in the masked set: old, no error, no small table, and if it bears a table,
      a more recent table exists. */
  ghost predicate RightlyMasked(c: Context, id: string) {
    id in c.handles && Old(c, id) && !HasSmallTable(c.handles[id]) && !HasKind(c.handles[id], "error") &&
    (HasKind(c.handles[id], "table") ==>
       exists other :: other in c.handles && other in c.steps && HasKind(c.handles[other], "table") &&
                       c.steps[other] > c.steps[id])
  }

  ghost predicate PositionOk(s: RunState, i: nat)
    requires i < |s.messages| == |s.originals|
  {
    var m := s.originals[i];
    s.messages[i] == m ||
    (m.Tool? && !Exempt(m.name) && m.callId in s.masked && m.callId in s.ctx.handles &&
     s.messages[i] == MaskedMessage(m, s.ctx))
  }

  ghost predicate MaskInv(s: RunState) {
    |s.messages| == |s.originals| && (forall i :: 0 <= i < |s.messages| ==> PositionOk(s, i)) &&
    (forall id :: id in s.masked ==> RightlyMasked(s.ctx, id)) &&
    (forall id :: id in s.ctx.handles ==> id in s.ctx.steps) &&
    (forall id :: id in s.ctx.steps ==> s.ctx.steps[id] < s.ctx.current)
  }

  lemma ArriveKeepsRight(c: Context, id: string, newId: string, hs: seq<Handle>)
    requires RightlyMasked(c, id) && newId !in c.steps && (forall k :: k in c.handles ==> k in c.steps)
    ensures RightlyMasked(Record(c, newId, hs), id)
  {
    var d := Record(c, newId, hs);
    if HasKind(c.handles[id], "table") {
      var other :| other in c.handles && other in c.steps && HasKind(c.handles[other], "table") &&
                   c.steps[other] > c.steps[id];
      assert other in d.handles && other in d.steps && HasKind(d.handles[other], "table") &&
             d.steps[other] > d.steps[id];
    }
  }

  lemma ArriveKeepsInv(s: RunState, m: Message, hs: seq<Handle>)
    requires MaskInv(s) && m.Tool? && ResultId(m) !in s.ctx.steps
    ensures MaskInv(Next(s, Arrive(m, hs)))
  {
    var t := Next(s, Arrive(m, hs));
    forall id | id in t.masked
      ensures RightlyMasked(t.ctx, id)
    {
      ArriveKeepsRight(s.ctx, id, ResultId(m), hs);
    }
    forall i | 0 <= i < |t.messages|
      ensures PositionOk(t, i)
    {
      if i < |s.messages| {
        assert PositionOk(s, i);
      }
    }
  }

  lemma MaskKeepsInv(s: RunState)
    requires MaskInv(s)
    ensures MaskInv(Next(s, Mask))
  {
    var t := Next(s, Mask);
    PassKeepsShape(s.messages, s.ctx, s.masked);
    forall i | 0 <= i < |t.messages|
      ensures PositionOk(t, i)
    {
      assert PositionOk(s, i);
      PassByPosition(s.messages, s.ctx, s.masked, i);
    }
    forall id | id in t.masked
      ensures RightlyMasked(t.ctx, id)
    {
      if id !in s.masked {
        assert s.messages != [];
        PassByPosition(s.messages, s.ctx, s.masked, 0);
      }
    }
  }

  /** Over any interleaving of arriving results and masking passes, position by position: a message is its
      original, or a reference to an old result that is no error, no small table and no planner or instruction
      result. */
  lemma {:induction false} MaskingOverRuns(es: seq<Event>)
    requires FreshIds(es)
    ensures MaskInv(RunMasking(es))
    decreases |es|
  {
    if es != [] {
      var s, e := RunMasking(es[..|es| - 1]), es[|es| - 1];
      MaskingOverRuns(es[..|es| - 1]);
      match e
      case Arrive(m, hs) => ArriveKeepsInv(s, m, hs);
      case Mask => MaskKeepsInv(s);
    }
  }

  /** The most recent table-bearing result is never masked. */
  lemma LatestTableSurvives(es: seq<Event>, id: string)
    requires FreshIds(es)
    requires var c := RunMasking(es).ctx;
             id in c.handles && id in c.steps && HasKind(c.handles[id], "table") &&
             forall other :: other in c.handles && other in c.steps && HasKind(c.handles[other], "table") ==>
                               c.steps[other] <= c.steps[id]
    ensures var s := RunMasking(es);
            |s.originals| == |s.messages| && id !in s.masked &&
            forall i :: 0 <= i < |s.messages| && s.originals[i].Tool? && s.originals[i].callId == id ==>
                                             s.messages[i] == s.originals[i]
  {
    MaskingOverRuns(es);
    var s := RunMasking(es);
    if id in s.masked {
      assert false;
    }
    forall i | 0 <= i < |s.messages| && s.originals[i].Tool? && s.originals[i].callId == id
      ensures s.messages[i] == s.originals[i]
    {
      assert PositionOk(s, i);
    }
  }
}
