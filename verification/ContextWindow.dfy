/** Shrinking a transcript to a token budget while every tool call keeps its result. */
module ContextWindow {
  import opened Options
  import opened Lists
  import opened Messages
  import opened ToolGroups

  const COMPACTED_TEXT := "[tool result compacted because context limit was reached]"

  /** The foreign parts: the model's token counter (None when it is missing or raises), the approximate one,
      and whether a text parses as a non-empty plan of well-formed steps. */
  datatype Env = Env(custom: seq<Message> -> Option<int>, approx: seq<Message> -> int, validPlan: string -> bool)

  function Estimate(env: Env, ms: seq<Message>): nat {
    var n := match env.custom(ms) case Some(k) => k case None => env.approx(ms);
    if n < 0 then 0 else n
  }

  predicate HasHuman(ms: seq<Message>) {
    exists k :: 0 <= k < |ms| && ms[k].Human?
  }

  function LatestHumanIndex(ms: seq<Message>): (r: int)
    ensures r == -1 || (0 <= r < |ms| && ms[r].Human?)
    ensures forall k :: r < k < |ms| ==> !ms[k].Human?
  {
    if ms == [] then -1
    else if ms[|ms| - 1].Human? then |ms| - 1
    else LatestHumanIndex(ms[..|ms| - 1])
  }

  method FindLatestHuman(ms: seq<Message>) returns (index: int)
    ensures index == LatestHumanIndex(ms)
  {
    index := |ms| - 1;
    while index >= 0
      invariant -1 <= index < |ms|
      invariant forall k :: index < k < |ms| ==> !ms[k].Human?
    {
      if ms[index].Human? {
        break;
      }
      index := index - 1;
    }
  }

  /** The complete tool groups of the turn after the latest human message. */
  function CurrentExchange(ms: seq<Message>): seq<Message> {
    var h := LatestHumanIndex(ms);
    if h < 0 then [] else Flat(CompleteGroups(ms[h + 1..]))
  }

  function AiIds(ms: seq<Message>): set<string> {
    set m, x | m in ms && x in CallIds(m) :: x
  }

  function ToolIds(ms: seq<Message>): set<string> {
    set m | m in ms && m.Tool? && ResultId(m) != "" :: ResultId(m)
  }

  function FirstSystem(ms: seq<Message>): seq<Message> {
    if ms != [] && ms[0].System? then [ms[0]] else []
  }

  /** `_minimal_valid_messages` */
  function Minimal(ms: seq<Message>, budget: int, env: Env): seq<Message> {
    var h := LatestHumanIndex(ms);
    if h < 0 then ms
    else
      var candidate := FirstSystem(ms) + [ms[h]];
      if FirstSystem(ms) != [] && Estimate(env, candidate) <= budget then candidate else [ms[h]]
  }

  // ----- compaction -----

  predicate IsPlanResult(m: Message, env: Env) {
    m.Tool? && m.name == "update_plan" && env.validPlan(m.text)
  }

  /** The call id of the last valid plan result, "" when there is none. */
  function LatestPlanId(ms: seq<Message>, env: Env): string {
    if ms == [] then ""
    else if IsPlanResult(ms[|ms| - 1], env) then ResultId(ms[|ms| - 1])
    else LatestPlanId(ms[..|ms| - 1], env)
  }

  /** A copy keeps its uid: identities are only ever compared within one list. */
  function CompactMessage(m: Message): Message {
    if m.Tool? && m.name != "planner_tool" && m.name != "get_tool_instructions" then m.(text := COMPACTED_TEXT) else m
  }

  /** `_compact_tool_exchange_messages` */
  function Compacted(ms: seq<Message>, env: Env): seq<Message> {
    var plan := LatestPlanId(ms, env);
    seq(|ms|, i requires 0 <= i < |ms| =>
      if ms[i].Tool? && ResultId(ms[i]) == plan then ms[i] else CompactMessage(ms[i]))
  }

  // ----- fitting the current exchange -----

  function Candidates(base: seq<Message>, env: Env): seq<seq<Message>> {
    var c := Compacted(base, env);
    [base, c] + (if c != [] && c[0].System? then [c[1..]] else [])
  }

  function FirstFitting(cs: seq<seq<Message>>, budget: int, env: Env): Option<seq<Message>> {
    if cs == [] then None
    else if Estimate(env, Dropped(cs[0])) <= budget then Some(Dropped(cs[0]))
    else FirstFitting(cs[1..], budget, env)
  }

  function Fit(base: seq<Message>, fallback: seq<Message>, budget: int, env: Env): seq<Message> {
    match FirstFitting(Candidates(base, env), budget, env)
    case Some(c) => c
    case None => Minimal(fallback, budget, env)
  }

  method FitToolExchangeMessages(base: seq<Message>, fallback: seq<Message>, budget: int, env: Env)
      returns (r: seq<Message>)
    ensures r == Fit(base, fallback, budget, env)
  {
    var candidates := Candidates(base, env);
    for i := 0 to |candidates|
      invariant FirstFitting(candidates, budget, env) == FirstFitting(candidates[i..], budget, env)
    {
      var candidate := DropInvalidToolCallSequences(candidates[i]);
      if Estimate(env, candidate) <= budget {
        return candidate;
      }
      assert candidates[i..][1..] == candidates[i + 1..];
    }
    r := Minimal(fallback, budget, env);
  }

  function Base(ms: seq<Message>): seq<Message>
    requires LatestHumanIndex(ms) >= 0
  {
    FirstSystem(ms) + [ms[LatestHumanIndex(ms)]] + CurrentExchange(ms)
  }

  /** `_preserve_current_tool_exchange` */
  function Preserved(ms: seq<Message>, trimmed: seq<Message>, budget: int, env: Env): seq<Message> {
    var required := AiIds(CurrentExchange(ms));
    if CurrentExchange(ms) == [] then trimmed
    else if required != {} && required <= AiIds(trimmed) && required <= ToolIds(trimmed) then trimmed
    else if LatestHumanIndex(ms) < 0 then trimmed
    else Fit(Base(ms), ms, budget, env)
  }

  /** `trim_context_messages`; `lib` is what `trim_messages` returned, None when it raised. */
  function Trimmed(ms: seq<Message>, budget: int, env: Env, lib: Option<seq<Message>>): seq<Message> {
    if budget <= 0 || lib == None then ms
    else
      var kept := Preserved(ms, Dropped(lib.value), budget, env);
      if HasHuman(ms) && !HasHuman(kept) then Minimal(ms, budget, env) else kept
  }

  method TrimContextMessages(ms: seq<Message>, budget: int, env: Env, lib: Option<seq<Message>>)
      returns (r: seq<Message>)
    ensures r == Trimmed(ms, budget, env, lib)
  {
    if budget <= 0 || lib == None {
      return ms;
    }
    var trimmed := DropInvalidToolCallSequences(lib.value);
    var human := FindLatestHuman(ms);
    HumanIndex(ms);
    var exchange: seq<Message> := [];
    if human >= 0 {
      var groups := CompleteToolGroups(ms[human + 1..]);
      exchange := Flat(groups);
    }
    var required := AiIds(exchange);
    var kept := trimmed;
    if exchange != [] && !(required != {} && required <= AiIds(trimmed) && required <= ToolIds(trimmed)) {
      kept := FitToolExchangeMessages(FirstSystem(ms) + [ms[human]] + exchange, ms, budget, env);
    }
    if human >= 0 && !HasHuman(kept) {
      return Minimal(ms, budget, env);
    }
    r := kept;
  }

  lemma HumanIndex(ms: seq<Message>)
    ensures HasHuman(ms) <==> LatestHumanIndex(ms) >= 0
  {
  }

  // ----- the messages the fallbacks are built from -----

  lemma {:induction false} FlatGroupsClosed(ms: seq<Message>)
    ensures ToolClosed(Flat(CompleteGroups(ms)))
    decreases |ms|
  {
    if ms == [] {
    } else if CallIds(ms[0]) == [] {
      FlatGroupsClosed(ms[1..]);
    } else {
      FlatGroupsClosed(AfterResults(ms));
      GroupFacts(ms);
      FlatStep(ms);
      if Complete(ms) {
        ClosedAppend(Group(ms), Flat(CompleteGroups(AfterResults(ms))));
      } else {
        NilSeq(Flat(CompleteGroups(AfterResults(ms))));
      }
    }
  }

  lemma PlainFront(m: Message, rest: seq<Message>)
    requires Plain(m)
    ensures ToolClosed([m] + rest) == ToolClosed(rest)
  {
    assert ([m] + rest)[1..] == rest;
  }

  lemma SystemThen(ms: seq<Message>, rest: seq<Message>)
    ensures ToolClosed(FirstSystem(ms) + rest) == ToolClosed(rest)
  {
    if FirstSystem(ms) != [] {
      PlainFront(ms[0], rest);
    } else {
      NilSeq(rest);
    }
  }

  lemma BaseIsClosed(ms: seq<Message>)
    requires LatestHumanIndex(ms) >= 0
    ensures ToolClosed(Base(ms)) && ToolClosed(CurrentExchange(ms))
  {
    var h, ex := LatestHumanIndex(ms), CurrentExchange(ms);
    FlatGroupsClosed(ms[h + 1..]);
    PlainFront(ms[h], ex);
    AssocSeq(FirstSystem(ms), [ms[h]], ex);
    SystemThen(ms, [ms[h]] + ex);
  }

  lemma BaseIsSub(ms: seq<Message>)
    requires LatestHumanIndex(ms) >= 0
    ensures IsSub(Base(ms), ms)
  {
    var h := LatestHumanIndex(ms);
    var ex, sys := CurrentExchange(ms), FirstSystem(ms);
    FlatGroupsIsSub(ms[h + 1..]);
    SubFront(sys, ms[..h]);
    SubThree(sys, ms[..h], ms[h], ex, ms[h + 1..]);
    SplitAround(ms, h);
  }

  lemma SubThree(a: seq<Message>, b: seq<Message>, m: Message, c: seq<Message>, d: seq<Message>)
    requires IsSub(a, b) && IsSub(c, d)
    ensures IsSub(a + [m] + c, b + [m] + d)
  {
    SubRefl([m]);
    SubAppend(a, b, [m], [m]);
    SubAppend(a + [m], b + [m], c, d);
  }

  /** System message, latest human message, current exchange: tool-closed and drawn from the transcript. */
  lemma BaseFacts(ms: seq<Message>)
    requires LatestHumanIndex(ms) >= 0
    ensures ToolClosed(Base(ms)) && IsSub(Base(ms), ms)
    ensures ToolClosed(CurrentExchange(ms))
  {
    BaseIsClosed(ms);
    BaseIsSub(ms);
  }

  lemma SubFront(a: seq<Message>, b: seq<Message>)
    requires a == [] || (|a| == 1 && b != [] && a[0] == b[0])
    ensures IsSub(a, b)
  {
    if a != [] {
      assert a[1..] == [];
    }
  }

  lemma CompactedShape(ms: seq<Message>, env: Env)
    ensures SameShape(ms, Compacted(ms, env))
  {
    var c := Compacted(ms, env);
    forall i | 0 <= i < |ms|
      ensures SameSlot(ms[i], c[i])
    {
    }
  }

  /** The last result of the plan tool that holds a valid plan. */
  predicate LastPlan(ms: seq<Message>, env: Env, k: nat)
    requires k < |ms|
  {
    ms[k].Tool? && ms[k].name == "update_plan" && env.validPlan(ms[k].text) &&
    forall j :: k < j < |ms| && ms[j].Tool? && ms[j].name == "update_plan" ==> !env.validPlan(ms[j].text)
  }

  /** Compaction leaves the message alone: no result, a planner or instruction result, or a result with the call id of
      the last valid plan; without any plan, a result without a call id. */
  predicate KeepsText(ms: seq<Message>, env: Env, i: nat)
    requires i < |ms|
  {
    !ms[i].Tool? || ms[i].name == "planner_tool" || ms[i].name == "get_tool_instructions" ||
    (exists k :: 0 <= k < |ms| && LastPlan(ms, env, k) && ResultId(ms[k]) == ResultId(ms[i])) ||
    (ResultId(ms[i]) == "" && forall k :: 0 <= k < |ms| ==> !LastPlan(ms, env, k))
  }

  /** What a compacted exchange still says: the latest valid plan, planner and instruction results in full. */
  lemma CompactedContents(ms: seq<Message>, env: Env, i: nat)
    requires i < |ms|
    ensures Compacted(ms, env)[i] ==
            if KeepsText(ms, env, i) then ms[i] else Tool(ms[i].uid, ms[i].callId, ms[i].name, COMPACTED_TEXT)
    ensures LastPlan(ms, env, i) ==> Compacted(ms, env)[i] == ms[i]
  {
    if k: nat :| k < |ms| && LastPlan(ms, env, k) {
      PlanIdIsLast(ms, env, k);
      forall j: nat | j < |ms| && LastPlan(ms, env, j)
        ensures j == k
      {
        LastPlanIsOne(ms, env, j, k);
      }
    } else {
      NoPlanNoId(ms, env);
    }
  }

  lemma LastPlanIsOne(ms: seq<Message>, env: Env, j: nat, k: nat)
    requires j < |ms| && k < |ms| && LastPlan(ms, env, j) && LastPlan(ms, env, k)
    ensures j == k
  {
  }

  lemma {:induction false} PlanIdIsLast(ms: seq<Message>, env: Env, k: nat)
    requires k < |ms| && LastPlan(ms, env, k)
    ensures LatestPlanId(ms, env) == ResultId(ms[k])
  {
    if k < |ms| - 1 {
      var init := ms[..|ms| - 1];
      assert forall j :: 0 <= j < |init| ==> init[j] == ms[j];
      PlanIdIsLast(init, env, k);
    }
  }

  lemma {:induction false} NoPlanNoId(ms: seq<Message>, env: Env)
    requires forall k :: 0 <= k < |ms| ==> !LastPlan(ms, env, k)
    ensures LatestPlanId(ms, env) == ""
  {
    if ms != [] {
      var init := ms[..|ms| - 1];
      assert !LastPlan(ms, env, |init|);
      forall k: nat | k < |init|
        ensures !LastPlan(init, env, k)
      {
        if LastPlan(init, env, k) {
          assert forall j :: k < j < |ms| ==> j < |init| ==> ms[j] == init[j];
          assert LastPlan(ms, env, k);
        }
      }
      NoPlanNoId(init, env);
    }
  }

  /** On a tool-closed transcript of distinct messages the group filter of `Fit` removes nothing. */
  lemma ClosedIsUntouched(ms: seq<Message>)
    requires DistinctUids(ms) && ToolClosed(ms)
    ensures Dropped(ms) == ms
  {
    GroupFilterTheorem(ms);
  }

  /** The five outcomes of fitting the current exchange. */
  predicate FitOutcome(r: seq<Message>, ms: seq<Message>, budget: int, env: Env)
    requires LatestHumanIndex(ms) >= 0
  {
    var c := Compacted(Base(ms), env);
    r == Minimal(ms, budget, env) ||
    (Estimate(env, r) <= budget && (r == Base(ms) || r == c || (c[0].System? && r == c[1..])))
  }

  lemma {:induction false} FirstFittingIs(cs: seq<seq<Message>>, budget: int, env: Env) returns (k: nat)
    requires FirstFitting(cs, budget, env).Some?
    ensures k < |cs| && FirstFitting(cs, budget, env) == Some(Dropped(cs[k])) && Estimate(env, Dropped(cs[k])) <= budget
  {
    if Estimate(env, Dropped(cs[0])) <= budget {
      k := 0;
    } else {
      var j := FirstFittingIs(cs[1..], budget, env);
      k := j + 1;
      assert cs[k] == cs[1..][j];
    }
  }

  lemma FitOutcomes(ms: seq<Message>, budget: int, env: Env)
    requires LatestHumanIndex(ms) >= 0 && DistinctUids(ms)
    ensures FitOutcome(Fit(Base(ms), ms, budget, env), ms, budget, env)
  {
    var base := Base(ms);
    var cs := Candidates(base, env);
    if FirstFitting(cs, budget, env).Some? {
      var k := FirstFittingIs(cs, budget, env);
      CandidateUntouched(ms, env, k);
    }
  }

  lemma BaseAndCompacted(ms: seq<Message>, env: Env)
    requires LatestHumanIndex(ms) >= 0 && DistinctUids(ms)
    ensures var base, c := Base(ms), Compacted(Base(ms), env);
            SameShape(base, c) && ToolClosed(base) && DistinctUids(base) && ToolClosed(c) && DistinctUids(c)
  {
    var base := Base(ms);
    BaseFacts(ms);
    SubDistinct(base, ms);
    CompactedShape(base, env);
    ShapeKeepsClosed(base, Compacted(base, env));
    ShapeKeepsUids(base, Compacted(base, env));
  }

  lemma CandidateUntouched(ms: seq<Message>, env: Env, k: nat)
    requires LatestHumanIndex(ms) >= 0 && DistinctUids(ms) && k < |Candidates(Base(ms), env)|
    ensures Dropped(Candidates(Base(ms), env)[k]) == Candidates(Base(ms), env)[k]
  {
    var base := Base(ms);
    var c := Compacted(base, env);
    BaseAndCompacted(ms, env);
    CandidateIs(base, env, k);
    if k == 0 {
      ClosedIsUntouched(base);
    } else if k == 1 {
      ClosedIsUntouched(c);
    } else {
      TailUntouched(c);
    }
  }

  lemma CandidateIs(base: seq<Message>, env: Env, k: nat)
    requires k < |Candidates(base, env)|
    ensures var c, r := Compacted(base, env), Candidates(base, env)[k];
            if k == 0 then r == base else if k == 1 then r == c else c != [] && c[0].System? && r == c[1..]
  {
  }

  lemma TailUntouched(c: seq<Message>)
    requires c != [] && c[0].System? && ToolClosed(c) && DistinctUids(c)
    ensures Dropped(c[1..]) == c[1..]
  {
    SubDistinctTail(c);
    ClosedIsUntouched(c[1..]);
  }

  lemma SubDistinctTail(ms: seq<Message>)
    requires ms != [] && DistinctUids(ms)
    ensures DistinctUids(ms[1..])
  {
    HeadNotInTail(ms);
  }

  // ----- ids -----

  lemma AiIdsAppend(a: seq<Message>, b: seq<Message>)
    ensures AiIds(a + b) == AiIds(a) + AiIds(b) && ToolIds(a + b) == ToolIds(a) + ToolIds(b)
  {
    assert forall m :: m in a + b <==> m in a || m in b;
  }

  lemma ShapeKeepsIds(a: seq<Message>, b: seq<Message>)
    requires SameShape(a, b)
    ensures AiIds(a) <= AiIds(b) && ToolIds(a) <= ToolIds(b)
  {
    forall x | x in AiIds(a)
      ensures x in AiIds(b)
    {
      var m :| m in a && x in CallIds(m);
      var i :| 0 <= i < |a| && a[i] == m;
      assert SameSlot(a[i], b[i]) && b[i] in b;
    }
    forall x | x in ToolIds(a)
      ensures x in ToolIds(b)
    {
      var m :| m in a && m.Tool? && ResultId(m) == x;
      var i :| 0 <= i < |a| && a[i] == m;
      assert SameSlot(a[i], b[i]) && b[i] in b;
    }
  }

  /** In a tool-closed transcript the ids called are the ids answered. */
  lemma {:induction false} ClosedIds(ms: seq<Message>)
    requires ToolClosed(ms)
    ensures AiIds(ms) == ToolIds(ms)
    decreases |ms|
  {
    if ms != [] {
      assert ms == [ms[0]] + ms[1..];
      AiIdsAppend([ms[0]], ms[1..]);
      if Plain(ms[0]) {
        ClosedIds(ms[1..]);
        assert AiIds([ms[0]]) == {} && ToolIds([ms[0]]) == {};
      } else {
        ResultsAreTools(ms);
        var run, after := Results(ms), AfterResults(ms);
        ClosedIds(after);
        AiIdsAppend([ms[0]] + run, after);
        AiIdsAppend([ms[0]], run);
        GroupIds(ms[0], run);
      }
    }
  }

  lemma GroupIds(m: Message, run: seq<Message>)
    requires m.AI? && AllTools(run) && AnswersExactly(run, CallIds(m))
    ensures AiIds([m]) == IdSet(CallIds(m)) == ToolIds(run) && ToolIds([m]) == {} && AiIds(run) == {}
  {
    NonBlankIds(m.calls);
    forall x
      ensures x in ToolIds(run) <==> x in IdSet(ResultIds(run))
    {
      if x in ToolIds(run) {
        var t :| t in run && t.Tool? && ResultId(t) == x;
        var i :| 0 <= i < |run| && run[i] == t;
        assert ResultIds(run)[i] == x;
      }
      if x in IdSet(ResultIds(run)) {
        var i :| 0 <= i < |run| && ResultIds(run)[i] == x;
        assert run[i] in run && run[i].Tool?;
        assert x in CallIds(m);
      }
    }
    forall t | t in run
      ensures CallIds(t) == []
    {
    }
    assert m in [m];
  }

  // ----- the trim theorems -----

  lemma MinimalFacts(ms: seq<Message>, budget: int, env: Env)
    requires LatestHumanIndex(ms) >= 0
    ensures var r, h := Minimal(ms, budget, env), ms[LatestHumanIndex(ms)];
            ToolClosed(r) && HasHuman(r) && (r == [h] || (r == FirstSystem(ms) + [h] && Estimate(env, r) <= budget))
  {
    var h := ms[LatestHumanIndex(ms)];
    var r := Minimal(ms, budget, env);
    PlainFront(h, []);
    NilSeq([h]);
    if r != [h] {
      PlainFront(ms[0], [h]);
      assert r[1].Human?;
    } else {
      assert r[0].Human?;
    }
  }

  lemma FitFacts(r: seq<Message>, ms: seq<Message>, budget: int, env: Env)
    requires LatestHumanIndex(ms) >= 0 && FitOutcome(r, ms, budget, env)
    ensures ToolClosed(r) && HasHuman(r)
    ensures r == Minimal(ms, budget, env) || AiIds(CurrentExchange(ms)) <= AiIds(r)
  {
    var base := Base(ms);
    var c := Compacted(base, env);
    var h, sys, ex := ms[LatestHumanIndex(ms)], FirstSystem(ms), CurrentExchange(ms);
    BaseFacts(ms);
    CompactedShape(base, env);
    ShapeKeepsClosed(base, c);
    ShapeKeepsIds(base, c);
    AiIdsAppend(sys + [h], ex);
    assert base[|sys|] == h && SameSlot(base[|sys|], c[|sys|]);
    if r == Minimal(ms, budget, env) {
      MinimalFacts(ms, budget, env);
    } else if r == base {
      assert r[|sys|].Human?;
    } else if r == c {
      assert r[|sys|].Human?;
    } else {
      assert SameSlot(base[0], c[0]) && base[0].System?;
      SystemFront(c);
      assert |sys| == 1;
      assert r[0] == c[1] && r[0].Human?;
    }
  }

  lemma SystemFront(c: seq<Message>)
    requires c != [] && c[0].System?
    ensures ToolClosed(c) ==> ToolClosed(c[1..])
    ensures AiIds(c[1..]) == AiIds(c)
  {
    assert c == [c[0]] + c[1..];
    AiIdsAppend([c[0]], c[1..]);
    assert AiIds([c[0]]) == {};
  }

  /** Where the result comes from when the library returned l. */
  lemma TrimCases(ms: seq<Message>, budget: int, env: Env, l: seq<Message>)
    requires budget > 0 && LatestHumanIndex(ms) >= 0
    ensures var r, ids := Trimmed(ms, budget, env, Some(l)), AiIds(CurrentExchange(ms));
            r == Minimal(ms, budget, env) ||
            r == Fit(Base(ms), ms, budget, env) ||
            (r == Dropped(l) && HasHuman(r) && (CurrentExchange(ms) == [] || (ids <= AiIds(r) && ids <= ToolIds(r))))
  {
    HumanIndex(ms);
  }

  /** For any transcript of distinct messages, any positive budget and any list of distinct messages the library
      may return, the result is tool-closed and keeps a human message when there is one. */
  lemma {:induction false} TrimIsClosed(ms: seq<Message>, budget: int, env: Env, l: seq<Message>)
    requires budget > 0 && DistinctUids(ms) && DistinctUids(l)
    ensures var r := Trimmed(ms, budget, env, Some(l)); ToolClosed(r) && (HasHuman(ms) ==> HasHuman(r))
  {
    GroupFilterTheorem(l);
    HumanIndex(ms);
    if LatestHumanIndex(ms) >= 0 {
      TrimCases(ms, budget, env, l);
      MinimalFacts(ms, budget, env);
      FitOutcomes(ms, budget, env);
      FitFacts(Fit(Base(ms), ms, budget, env), ms, budget, env);
    }
  }

  /** Deleting messages never raises the estimate. */
  ghost predicate Monotone(env: Env) {
    forall a, b :: IsSub(a, b) ==> Estimate(env, a) <= Estimate(env, b)
  }

  /** The library's promise: a subsequence that fits the budget, or else holds no human message. */
  predicate LibraryContract(ms: seq<Message>, l: seq<Message>, budget: int, env: Env) {
    IsSub(l, ms) && (Estimate(env, l) <= budget || !HasHuman(l))
  }

  /** With the library's promise the result fits, or is exactly the latest human message alone. */
  lemma {:induction false} TrimFits(ms: seq<Message>, budget: int, env: Env, l: seq<Message>)
    requires budget > 0 && DistinctUids(ms) && HasHuman(ms) && Monotone(env) && LibraryContract(ms, l, budget, env)
    ensures var r := Trimmed(ms, budget, env, Some(l));
            Estimate(env, r) <= budget || r == [ms[LatestHumanIndex(ms)]]
  {
    HumanIndex(ms);
    SubDistinct(l, ms);
    DroppedFits(l, budget, env);
    TrimCases(ms, budget, env, l);
    MinimalFacts(ms, budget, env);
    FitOutcomes(ms, budget, env);
  }

  lemma DroppedFits(l: seq<Message>, budget: int, env: Env)
    requires DistinctUids(l) && Monotone(env) && (Estimate(env, l) <= budget || !HasHuman(l))
    ensures HasHuman(Dropped(l)) ==> Estimate(env, Dropped(l)) <= budget
  {
    GroupFilterTheorem(l);
    SubHasHuman(Dropped(l), l);
    assert Estimate(env, Dropped(l)) <= Estimate(env, l);
  }

  lemma SubHasHuman(a: seq<Message>, b: seq<Message>)
    requires IsSub(a, b)
    ensures HasHuman(a) ==> HasHuman(b)
  {
    SubMembers(a, b);
    NoHumanMember(a);
    NoHumanMember(b);
  }

  lemma NoHumanMember(ms: seq<Message>)
    ensures HasHuman(ms) <==> exists m :: m in ms && m.Human?
  {
    if exists m :: m in ms && m.Human? {
      var m :| m in ms && m.Human?;
      var k :| 0 <= k < |ms| && ms[k] == m;
      assert ms[k].Human?;
    }
    if HasHuman(ms) {
      var k :| 0 <= k < |ms| && ms[k].Human?;
      assert ms[k] in ms;
    }
  }

  /** The current turn is kept whole or not at all: every call id of its complete groups is still called and
      answered, or only the latest human message (and possibly the system message) is left. */
  lemma {:induction false} CurrentTurnAllOrNothing(ms: seq<Message>, budget: int, env: Env, l: seq<Message>)
    requires budget > 0 && DistinctUids(ms) && DistinctUids(l) && CurrentExchange(ms) != []
    ensures var r, h, ids := Trimmed(ms, budget, env, Some(l)), ms[LatestHumanIndex(ms)], AiIds(CurrentExchange(ms));
            ids == ToolIds(CurrentExchange(ms)) &&
            ((ids <= AiIds(r) && ids <= ToolIds(r)) || r == [h] || r == FirstSystem(ms) + [h])
  {
    var fit := Fit(Base(ms), ms, budget, env);
    BaseFacts(ms);
    ClosedIds(CurrentExchange(ms));
    TrimCases(ms, budget, env, l);
    MinimalFacts(ms, budget, env);
    FitOutcomes(ms, budget, env);
    FitFacts(fit, ms, budget, env);
    ClosedIds(fit);
  }

  /** Trimming keeps a tool-closed transcript tool-closed, whatever the budget and whether or not the library
      raised. */
  lemma {:induction false} TrimKeepsClosed(ms: seq<Message>, budget: int, env: Env, lib: Option<seq<Message>>)
    requires ToolClosed(ms) && DistinctUids(ms) && (lib.Some? ==> DistinctUids(lib.value))
    ensures ToolClosed(Trimmed(ms, budget, env, lib))
  {
    if budget > 0 && lib.Some? {
      TrimIsClosed(ms, budget, env, lib.value);
    }
  }
}
