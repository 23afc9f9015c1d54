/** Chat transcripts: messages, tool groups and what it means for a transcript to be tool-closed. */
module Messages {
  import opened Text
  import opened Lists

  datatype Call = Call(id: string, name: string, args: string)

  /** `uid` stands for the object identity that the code compares with `id()`. */
  datatype Message =
    | System(uid: nat, text: string)
    | Human(uid: nat, text: string)
    | AI(uid: nat, text: string, calls: seq<Call>)
    | Tool(uid: nat, callId: string, name: string, text: string)

  /** The non-blank call ids of a message, stripped, in order. */
  function CallIds(m: Message): seq<string> {
    if m.AI? then NonBlank(m.calls) else []
  }

  function NonBlank(calls: seq<Call>): seq<string> {
    if calls == [] then []
    else (if Strip(calls[0].id) == "" then [] else [Strip(calls[0].id)]) + NonBlank(calls[1..])
  }

  lemma NonBlankIds(calls: seq<Call>)
    ensures "" !in NonBlank(calls)
  {
  }

  function ResultId(m: Message): string {
    if m.Tool? then Strip(m.callId) else ""
  }

  /** Neither a tool result nor an AI message with calls. */
  predicate Plain(m: Message) {
    !m.Tool? && CallIds(m) == []
  }

  function IdSet(ids: seq<string>): set<string> {
    set x | x in ids
  }

  /** How many tool messages the list starts with. */
  function LeadTools(ms: seq<Message>): (n: nat)
    ensures n <= |ms|
  {
    if ms == [] || !ms[0].Tool? then 0 else 1 + LeadTools(ms[1..])
  }

  predicate AllTools(run: seq<Message>) {
    forall k :: 0 <= k < |run| ==> run[k].Tool?
  }

  lemma LeadToolsAreTools(ms: seq<Message>)
    ensures AllTools(ms[..LeadTools(ms)])
    ensures LeadTools(ms) < |ms| ==> !ms[LeadTools(ms)].Tool?
  {
    if ms != [] && ms[0].Tool? {
      LeadToolsAreTools(ms[1..]);
      var n := LeadTools(ms[1..]);
      assert ms[..1 + n] == [ms[0]] + ms[1..][..n];
    }
  }

  /** The tool results an AI message is followed by at once. */
  function Results(ms: seq<Message>): seq<Message>
    requires ms != []
  {
    ms[1..1 + LeadTools(ms[1..])]
  }

  /** The transcript after an AI message and its results. */
  function AfterResults(ms: seq<Message>): seq<Message>
    requires ms != []
  {
    ms[1 + LeadTools(ms[1..])..]
  }

  function ResultIds(run: seq<Message>): seq<string> {
    seq(|run|, i requires 0 <= i < |run| => ResultId(run[i]))
  }

  /** Exactly one result for each of the ids, and none for another. */
  predicate AnswersExactly(run: seq<Message>, ids: seq<string>) {
    NoDuplicates(ResultIds(run)) && IdSet(ResultIds(run)) == IdSet(ids)
  }

  /** Every AI message with calls is followed at once by exactly one result per distinct call id,
      and there is no other tool message. */
  predicate ToolClosed(ms: seq<Message>)
    decreases |ms|
  {
    if ms == [] then true
    else if Plain(ms[0]) then ToolClosed(ms[1..])
    else ms[0].AI? && AnswersExactly(Results(ms), CallIds(ms[0])) && ToolClosed(AfterResults(ms))
  }

  // ----- identity and subsequences -----

  predicate DistinctUids(ms: seq<Message>) {
    forall i, j :: 0 <= i < j < |ms| ==> ms[i].uid != ms[j].uid
  }

  /** a is obtained from b by deleting messages. */
  predicate IsSub(a: seq<Message>, b: seq<Message>)
    decreases |b|
  {
    a == [] || (b != [] && ((a[0] == b[0] && IsSub(a[1..], b[1..])) || IsSub(a, b[1..])))
  }

  lemma {:induction false} SubRefl(a: seq<Message>)
    ensures IsSub(a, a)
  {
    if a != [] {
      SubRefl(a[1..]);
    }
  }

  lemma {:induction false} SubAppend(a: seq<Message>, b: seq<Message>, c: seq<Message>, d: seq<Message>)
    requires IsSub(a, b) && IsSub(c, d)
    ensures IsSub(a + c, b + d)
    decreases |b|
  {
    if b == [] {
      assert a + c == c && b + d == d;
    } else if a != [] && a[0] == b[0] && IsSub(a[1..], b[1..]) {
      SubAppend(a[1..], b[1..], c, d);
      assert (a + c)[1..] == a[1..] + c && (b + d)[1..] == b[1..] + d;
    } else {
      SubAppend(a, b[1..], c, d);
      assert (b + d)[1..] == b[1..] + d;
    }
  }

  lemma {:induction false} SubMembers(a: seq<Message>, b: seq<Message>)
    requires IsSub(a, b)
    ensures forall m :: m in a ==> m in b
    decreases |b|
  {
    if a != [] {
      if a[0] == b[0] && IsSub(a[1..], b[1..]) {
        SubMembers(a[1..], b[1..]);
        assert a == [a[0]] + a[1..];
      } else {
        SubMembers(a, b[1..]);
      }
    }
  }

  lemma HeadNotInTail(ms: seq<Message>)
    requires DistinctUids(ms) && ms != []
    ensures DistinctUids(ms[1..]) && forall m :: m in ms[1..] ==> m.uid != ms[0].uid
  {
  }

  lemma {:induction false} SubDistinct(a: seq<Message>, b: seq<Message>)
    requires IsSub(a, b) && DistinctUids(b)
    ensures DistinctUids(a)
    decreases |b|
  {
    if a != [] {
      HeadNotInTail(b);
      if a[0] == b[0] && IsSub(a[1..], b[1..]) {
        SubDistinct(a[1..], b[1..]);
        SubMembers(a[1..], b[1..]);
        assert a == [a[0]] + a[1..];
        forall i, j | 0 <= i < j < |a|
          ensures a[i].uid != a[j].uid
        {
          assert a[j] in a[1..];
          if i > 0 {
            assert a[i] == a[1..][i - 1] && a[j] == a[1..][j - 1];
          }
        }
      } else {
        SubDistinct(a, b[1..]);
      }
    }
  }

  // ----- content does not matter for tool-closedness -----

  /** Equal, or two tool messages that differ in name and text only. */
  predicate SameSlot(m: Message, k: Message) {
    m == k || (m.Tool? && k.Tool? && m.uid == k.uid && m.callId == k.callId)
  }

  predicate SameShape(a: seq<Message>, b: seq<Message>) {
    |a| == |b| && forall i :: 0 <= i < |a| ==> SameSlot(a[i], b[i])
  }

  lemma {:induction false} SameLeadTools(a: seq<Message>, b: seq<Message>)
    requires SameShape(a, b)
    ensures LeadTools(a) == LeadTools(b)
    decreases |a|
  {
    if a != [] {
      assert SameSlot(a[0], b[0]);
      SameLeadTools(a[1..], b[1..]);
    }
  }

  lemma {:induction false} ShapeKeepsClosed(a: seq<Message>, b: seq<Message>)
    requires SameShape(a, b) && ToolClosed(a)
    ensures ToolClosed(b)
    decreases |a|
  {
    if a != [] {
      assert SameSlot(a[0], b[0]);
      if Plain(a[0]) {
        ShapeKeepsClosed(a[1..], b[1..]);
      } else {
        SameLeadTools(a[1..], b[1..]);
        var n := LeadTools(a[1..]);
        assert Results(a) == a[1..][..n] && Results(b) == b[1..][..n];
        assert ResultIds(Results(a)) == ResultIds(Results(b));
        ShapeKeepsClosed(AfterResults(a), AfterResults(b));
      }
    }
  }

  lemma ShapeKeepsUids(a: seq<Message>, b: seq<Message>)
    requires SameShape(a, b) && DistinctUids(a)
    ensures DistinctUids(b)
  {
    forall i, j | 0 <= i < j < |b|
      ensures b[i].uid != b[j].uid
    {
      assert SameSlot(a[i], b[i]) && SameSlot(a[j], b[j]);
    }
  }

  // ----- tool-closed transcripts put together -----

  lemma {:induction false} LeadToolsAppend(a: seq<Message>, b: seq<Message>)
    requires b == [] || !b[0].Tool?
    ensures LeadTools(a + b) == LeadTools(a)
    decreases |a|
  {
    if a == [] {
      assert a + b == b;
    } else {
      assert (a + b)[0] == a[0] && (a + b)[1..] == a[1..] + b;
      LeadToolsAppend(a[1..], b);
    }
  }

  lemma ClosedStartsPlain(b: seq<Message>)
    requires ToolClosed(b)
    ensures b == [] || !b[0].Tool?
  {
  }

  lemma {:induction false} ClosedAppend(a: seq<Message>, b: seq<Message>)
    requires ToolClosed(a) && ToolClosed(b)
    ensures ToolClosed(a + b)
    decreases |a|
  {
    if a == [] {
      assert a + b == b;
    } else {
      var ab := a + b;
      assert ab[0] == a[0] && ab[1..] == a[1..] + b;
      if Plain(a[0]) {
        ClosedAppend(a[1..], b);
      } else {
        ClosedStartsPlain(b);
        ResultsAppend(a, b);
        ClosedAppend(AfterResults(a), b);
        assert AnswersExactly(Results(ab), CallIds(ab[0])) && ToolClosed(AfterResults(ab));
      }
    }
  }

  lemma ResultsAppend(a: seq<Message>, b: seq<Message>)
    requires a != [] && (b == [] || !b[0].Tool?)
    ensures Results(a + b) == Results(a) && AfterResults(a + b) == AfterResults(a) + b
  {
    assert (a + b)[1..] == a[1..] + b;
    LeadToolsAppend(a[1..], b);
  }

  /** One AI message with calls and results. */
  lemma ClosedGroup(m: Message, run: seq<Message>)
    requires m.AI? && CallIds(m) != [] && AllTools(run)
    ensures ToolClosed([m] + run) <==> AnswersExactly(run, CallIds(m))
  {
    var g := [m] + run;
    assert g[1..] == run;
    AllToolsLead(run);
    assert Results(g) == run && AfterResults(g) == [];
  }

  lemma {:induction false} AllToolsLead(run: seq<Message>)
    requires AllTools(run)
    ensures LeadTools(run) == |run|
  {
    if run != [] {
      AllToolsLead(run[1..]);
    }
  }
}
