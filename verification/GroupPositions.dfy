/** Which messages the group filter keeps, told position by position from the transcript alone. */
module GroupPositions {
  import opened Lists
  import opened Messages
  import opened ToolGroups

  /** The messages after j up to and including i are tool messages. */
  predicate ToolsUpTo(ms: seq<Message>, j: nat, i: nat)
    requires i < |ms|
  {
    forall t :: j < t <= i ==> ms[t].Tool?
  }

  /** A result of the id follows at once, with nothing but tool messages between. */
  predicate HasResult(ms: seq<Message>, j: nat, id: string) {
    exists k :: j < k < |ms| && ToolsUpTo(ms, j, k) && ResultId(ms[k]) == id
  }

  /** An AI message with calls, each of whose ids has a result. */
  predicate Answered(ms: seq<Message>, j: nat)
    requires j < |ms|
  {
    CallIds(ms[j]) != [] && forall id :: id in CallIds(ms[j]) ==> HasResult(ms, j, id)
  }

  /** No message after j and before i has the result id of message i. */
  predicate NoneBefore(ms: seq<Message>, j: int, i: nat)
    requires -1 <= j && i < |ms|
  {
    forall t :: j < t < i ==> ResultId(ms[t]) != ResultId(ms[i])
  }

  /** Message i is the first result of its id after the AI message j that calls it. */
  predicate FirstAnswer(ms: seq<Message>, j: nat, i: nat)
    requires j < i < |ms|
  {
    ToolsUpTo(ms, j, i) && ResultId(ms[i]) in CallIds(ms[j]) && NoneBefore(ms, j, i)
  }

  /** Message i is a result kept with the AI message j. */
  predicate KeptWith(ms: seq<Message>, j: nat, i: nat)
    requires i < |ms|
  {
    j < i && Answered(ms, j) && FirstAnswer(ms, j, i)
  }

  ghost predicate HasOwner(ms: seq<Message>, i: nat)
    requires i < |ms|
  {
    exists j: nat :: KeptWith(ms, j, i)
  }

  ghost predicate Kept(ms: seq<Message>, i: nat)
    requires i < |ms|
  {
    Plain(ms[i]) || Answered(ms, i) || HasOwner(ms, i)
  }

  lemma {:induction false} SeenIs(run: seq<Message>, ids: seq<string>, seen: set<string>, x: string)
    ensures x in SeenAfter(run, ids, seen) <==> x in seen || (x in ids && x in ResultIds(run))
  {
    if run != [] {
      SeenIs(run[1..], ids, if ResultId(run[0]) in ids then seen + {ResultId(run[0])} else seen, x);
      assert ResultIds(run) == [ResultId(run[0])] + ResultIds(run[1..]);
    }
  }

  lemma TailNoneBefore(run: seq<Message>, k: nat)
    requires 0 < k < |run|
    ensures NoneBefore(run, -1, k) <==> ResultId(run[0]) != ResultId(run[k]) && NoneBefore(run[1..], -1, k - 1)
  {
    var rest := run[1..];
    if NoneBefore(rest, -1, k - 1) {
      forall t | 0 < t < k
        ensures ResultId(run[t]) != ResultId(run[k])
      {
        assert ResultId(rest[t - 1]) != ResultId(rest[k - 1]);
      }
    }
  }

  lemma HeadPicked(run: seq<Message>, ids: seq<string>, seen: set<string>)
    requires DistinctUids(run) && run != []
    ensures run[0] in Picked(run, ids, seen) <==> ResultId(run[0]) in ids && ResultId(run[0]) !in seen
  {
    HeadNotInTail(run);
    PickedIsSub(run[1..], ids, seen);
    SubMembers(Picked(run[1..], ids, seen), run[1..]);
  }

  lemma {:induction false} PickedAt(run: seq<Message>, ids: seq<string>, seen: set<string>, k: nat)
    requires DistinctUids(run) && k < |run|
    ensures run[k] in Picked(run, ids, seen) <==>
            ResultId(run[k]) in ids && ResultId(run[k]) !in seen && NoneBefore(run, -1, k)
  {
    var id := ResultId(run[0]);
    if k == 0 {
      HeadPicked(run, ids, seen);
    } else {
      HeadNotInTail(run);
      TailNoneBefore(run, k);
      PickedAt(run[1..], ids, if id in ids && id !in seen then seen + {id} else seen, k - 1);
      assert run[1..][k - 1] == run[k] && run[k] != run[0];
    }
  }

  /** The run of results after an AI message. */
  lemma RunAt(ms: seq<Message>)
    requires ms != []
    ensures var n := |Results(ms)|;
            1 + n <= |ms| && Results(ms) == ms[1..1 + n] && AfterResults(ms) == ms[1 + n..] &&
            (forall t :: 0 < t <= n ==> ms[t].Tool?) && (1 + n < |ms| ==> !ms[1 + n].Tool?)
  {
    ResultsAreTools(ms);
    var n := |Results(ms)|;
    forall t | 0 < t <= n
      ensures ms[t].Tool?
    {
      assert ms[t] == Results(ms)[t - 1];
    }
  }

  lemma ResultIsThere(ms: seq<Message>, id: string)
    requires ms != []
    ensures HasResult(ms, 0, id) <==> id in ResultIds(Results(ms))
  {
    RunAt(ms);
    var run := Results(ms);
    if HasResult(ms, 0, id) {
      var k :| 0 < k < |ms| && ToolsUpTo(ms, 0, k) && ResultId(ms[k]) == id;
      assert k <= |run|;
      assert ResultIds(run)[k - 1] == id;
    }
    if id in ResultIds(run) {
      var k :| 0 <= k < |run| && ResultIds(run)[k] == id;
      assert ToolsUpTo(ms, 0, k + 1) && ResultId(ms[k + 1]) == id;
    }
  }

  /** A group is complete exactly when every id called has a result among the tool messages that follow at once. */
  lemma CompleteExactly(ms: seq<Message>)
    requires ms != [] && CallIds(ms[0]) != []
    ensures Complete(ms) <==> Answered(ms, 0)
  {
    var ids, run := CallIds(ms[0]), Results(ms);
    forall x
      ensures x in SeenAfter(run, ids, {}) <==> x in ids && HasResult(ms, 0, x)
    {
      SeenIs(run, ids, {}, x);
      ResultIsThere(ms, x);
    }
    if Answered(ms, 0) {
      assert SeenAfter(run, ids, {}) == IdSet(ids);
    }
    if Complete(ms) {
      assert forall x :: x in ids ==> x in IdSet(ids);
    }
  }

  /** Nothing before position n answers or owns anything after it. */
  lemma ShiftAnswered(ms: seq<Message>, n: nat, j: nat)
    requires n <= j < |ms|
    ensures Answered(ms, j) <==> Answered(ms[n..], j - n)
  {
    var rest := ms[n..];
    forall id
      ensures HasResult(ms, j, id) <==> HasResult(rest, j - n, id)
    {
      if HasResult(ms, j, id) {
        var k :| j < k < |ms| && ToolsUpTo(ms, j, k) && ResultId(ms[k]) == id;
        assert ToolsUpTo(rest, j - n, k - n) && ResultId(rest[k - n]) == id;
      }
      if HasResult(rest, j - n, id) {
        var k :| j - n < k < |rest| && ToolsUpTo(rest, j - n, k) && ResultId(rest[k]) == id;
        assert forall t :: j < t <= k + n ==> ms[t] == rest[t - n];
        assert ToolsUpTo(ms, j, k + n) && ResultId(ms[k + n]) == id;
      }
    }
  }

  lemma ShiftTools(ms: seq<Message>, n: nat, j: nat, i: nat)
    requires n <= j < i < |ms|
    ensures ToolsUpTo(ms, j, i) <==> ToolsUpTo(ms[n..], j - n, i - n)
  {
    if ToolsUpTo(ms[n..], j - n, i - n) {
      forall t | j < t <= i
        ensures ms[t].Tool?
      {
        assert ms[n..][t - n].Tool?;
      }
    }
  }

  lemma ShiftNoneBefore(ms: seq<Message>, n: nat, j: int, i: nat)
    requires -1 <= j - n && j < i < |ms| && n <= i
    ensures NoneBefore(ms, j, i) <==> NoneBefore(ms[n..], j - n, i - n)
  {
    if NoneBefore(ms[n..], j - n, i - n) {
      forall t | j < t < i
        ensures ResultId(ms[t]) != ResultId(ms[i])
      {
        assert ResultId(ms[n..][t - n]) != ResultId(ms[n..][i - n]);
      }
    }
  }

  lemma ShiftFirst(ms: seq<Message>, n: nat, j: nat, i: nat)
    requires n <= j < i < |ms|
    ensures FirstAnswer(ms, j, i) <==> FirstAnswer(ms[n..], j - n, i - n)
  {
    ShiftTools(ms, n, j, i);
    ShiftNoneBefore(ms, n, j, i);
  }

  lemma ShiftKeptWith(ms: seq<Message>, n: nat, j: nat, i: nat)
    requires n <= j && n <= i < |ms|
    ensures KeptWith(ms, j, i) <==> KeptWith(ms[n..], j - n, i - n)
  {
    if j < i {
      ShiftAnswered(ms, n, j);
      ShiftFirst(ms, n, j, i);
    }
  }

  lemma ShiftOwner(ms: seq<Message>, n: nat, i: nat)
    requires n <= i < |ms| && forall j: nat :: j < n ==> !KeptWith(ms, j, i)
    ensures HasOwner(ms, i) <==> HasOwner(ms[n..], i - n)
  {
    var rest, k := ms[n..], i - n;
    if HasOwner(ms, i) {
      var j: nat :| KeptWith(ms, j, i);
      ShiftKeptWith(ms, n, j, i);
    }
    if HasOwner(rest, k) {
      var j: nat :| KeptWith(rest, j, k);
      ShiftKeptWith(ms, n, j + n, i);
    }
  }

  lemma ShiftKept(ms: seq<Message>, n: nat, i: nat)
    requires n <= i < |ms| && forall j: nat :: j < n ==> !KeptWith(ms, j, i)
    ensures Kept(ms, i) <==> Kept(ms[n..], i - n)
  {
    ShiftAnswered(ms, n, i);
    ShiftOwner(ms, n, i);
  }

  lemma MembersOfTail(ms: seq<Message>, n: nat, i: nat)
    requires DistinctUids(ms) && i < n <= |ms|
    ensures DistinctUids(ms[n..]) && ms[i] !in Repaired(ms[n..])
  {
    var rest := ms[n..];
    RepairedIsSub(rest);
    SubMembers(Repaired(rest), rest);
    assert forall k :: 0 <= k < |rest| ==> rest[k] == ms[k + n];
  }

  lemma RunIsDistinct(ms: seq<Message>)
    requires DistinctUids(ms) && ms != []
    ensures DistinctUids(Results(ms)) && forall k :: 0 <= k < |Results(ms)| ==> Results(ms)[k] != ms[0]
  {
    RunAt(ms);
    assert forall k :: 0 <= k < |Results(ms)| ==> Results(ms)[k] == ms[k + 1];
  }

  lemma RunNoneBefore(ms: seq<Message>, i: nat)
    requires ms != [] && 0 < i <= |Results(ms)|
    ensures i < |ms| && (NoneBefore(Results(ms), -1, i - 1) <==> NoneBefore(ms, 0, i))
  {
    RunAt(ms);
    var n := 1 + |Results(ms)|;
    ShiftNoneBefore(ms[..n], 1, 0, i);
    assert ms[..n][1..] == Results(ms);
    if NoneBefore(ms[..n], 0, i) {
      forall t | 0 < t < i
        ensures ResultId(ms[t]) != ResultId(ms[i])
      {
        assert ResultId(ms[..n][t]) != ResultId(ms[..n][i]);
      }
    }
  }

  lemma PickedIsFirst(ms: seq<Message>, i: nat)
    requires DistinctUids(ms) && ms != [] && CallIds(ms[0]) != [] && 0 < i <= |Results(ms)|
    ensures i < |ms| && (ms[i] in Group(ms) <==> FirstAnswer(ms, 0, i))
  {
    RunAt(ms);
    RunIsDistinct(ms);
    RunNoneBefore(ms, i);
    var run := Results(ms);
    PickedAt(run, CallIds(ms[0]), {}, i - 1);
    assert run[i - 1] == ms[i] && ToolsUpTo(ms, 0, i);
    assert ms[i] in Group(ms) <==> run[i - 1] in Picked(run, CallIds(ms[0]), {});
  }

  /** A result that follows at once is kept with the first message or not at all. */
  lemma OwnerIsFirst(ms: seq<Message>, i: nat)
    requires ms != [] && CallIds(ms[0]) != [] && 0 < i <= |Results(ms)|
    ensures i < |ms| && (Kept(ms, i) <==> KeptWith(ms, 0, i))
  {
    RunAt(ms);
    assert !Plain(ms[i]) && CallIds(ms[i]) == [];
    forall j: nat | 0 < j < i
      ensures !KeptWith(ms, j, i)
    {
      assert CallIds(ms[j]) == [];
    }
  }

  /** A message of the first group. */
  lemma InGroup(ms: seq<Message>, i: nat)
    requires DistinctUids(ms) && ms != [] && CallIds(ms[0]) != [] && i <= |Results(ms)|
    ensures i < |ms| && (Complete(ms) && ms[i] in Group(ms) <==> Kept(ms, i))
  {
    RunAt(ms);
    CompleteExactly(ms);
    if i > 0 {
      PickedIsFirst(ms, i);
      OwnerIsFirst(ms, i);
    }
  }

  lemma PastGroup(ms: seq<Message>, i: nat)
    requires ms != [] && CallIds(ms[0]) != [] && |Results(ms)| < i < |ms|
    ensures forall j: nat :: j <= |Results(ms)| ==> !KeptWith(ms, j, i)
  {
    RunAt(ms);
  }

  lemma {:induction false} RepairedAt(ms: seq<Message>, i: nat)
    requires DistinctUids(ms) && i < |ms|
    ensures ms[i] in Repaired(ms) <==> Kept(ms, i)
    decreases |ms|
  {
    if CallIds(ms[0]) == [] {
      HeadNotInTail(ms);
      if i == 0 {
        MembersOfTail(ms, 1, 0);
      } else {
        RepairedAt(ms[1..], i - 1);
        ShiftKept(ms, 1, i);
        assert ms[i] != ms[0];
      }
    } else {
      GroupAt(ms, i);
      var n := 1 + |Results(ms)|;
      if i >= n {
        RunAt(ms);
        MembersOfTail(ms, n, 0);
        RepairedAt(ms[n..], i - n);
        PastGroup(ms, i);
        ShiftKept(ms, n, i);
      }
    }
  }

  lemma GroupAt(ms: seq<Message>, i: nat)
    requires DistinctUids(ms) && i < |ms| && CallIds(ms[0]) != []
    ensures var n := 1 + |Results(ms)|;
            n <= |ms| &&
            (ms[i] in Repaired(ms) <==> if i < n then Kept(ms, i) else ms[i] in Repaired(ms[n..]))
  {
    RunAt(ms);
    var n := 1 + |Results(ms)|;
    if i < n {
      MembersOfTail(ms, n, i);
      InGroup(ms, i);
    } else {
      GroupFacts(ms);
      SubMembers(Group(ms), [ms[0]] + Results(ms));
      assert ms[i] !in Group(ms) by {
        assert ms[i] != ms[0];
        assert forall k :: 0 <= k < |Results(ms)| ==> Results(ms)[k] == ms[k + 1];
      }
    }
  }

  /** The group filter by position: it keeps every plain message, every AI message all of whose calls have a result
      among the tool messages right after it, the first such result for each of its ids, and nothing else. */
  lemma FilterByPosition(ms: seq<Message>, i: nat)
    requires DistinctUids(ms) && i < |ms|
    ensures ms[i] in Dropped(ms) <==> Kept(ms, i)
  {
    DroppedIsRepaired(ms);
    RepairedAt(ms, i);
  }

  // ----- the groups themselves -----

  /** The AI messages with calls and the tool messages. */
  function Exchanges(ms: seq<Message>): seq<Message> {
    if ms == [] then [] else (if Plain(ms[0]) then [] else [ms[0]]) + Exchanges(ms[1..])
  }

  lemma {:induction false} ExchangesAppend(a: seq<Message>, b: seq<Message>)
    ensures Exchanges(a + b) == Exchanges(a) + Exchanges(b)
  {
    if a == [] {
      NilSeq(b);
      NilSeq(Exchanges(b));
    } else {
      ExchangesAppend(a[1..], b);
      assert (a + b)[1..] == a[1..] + b;
      AssocSeq(if Plain(a[0]) then [] else [a[0]], Exchanges(a[1..]), Exchanges(b));
    }
  }

  lemma {:induction false} ToolsAreExchanges(run: seq<Message>)
    requires AllTools(run)
    ensures Exchanges(run) == run
  {
    if run != [] {
      ToolsAreExchanges(run[1..]);
    }
  }

  lemma GroupIsExchange(ms: seq<Message>)
    requires ms != [] && CallIds(ms[0]) != []
    ensures Exchanges(Group(ms)) == Group(ms)
  {
    GroupFacts(ms);
    ToolsAreExchanges(Group(ms)[1..]);
    assert Group(ms) == [ms[0]] + Group(ms)[1..];
  }

  /** The complete groups laid end to end are what the filter keeps besides the plain messages. */
  lemma {:induction false} GroupsAreExchanges(ms: seq<Message>)
    ensures Flat(CompleteGroups(ms)) == Exchanges(Repaired(ms))
    decreases |ms|
  {
    if ms == [] {
    } else if CallIds(ms[0]) == [] {
      GroupsAreExchanges(ms[1..]);
      if !ms[0].Tool? {
        assert Repaired(ms)[1..] == Repaired(ms[1..]);
        NilSeq(Exchanges(Repaired(ms[1..])));
      }
    } else {
      GroupsAreExchanges(AfterResults(ms));
      FlatStep(ms);
      ExchangesAppend(if Complete(ms) then Group(ms) else [], Repaired(AfterResults(ms)));
      GroupIsExchange(ms);
    }
  }

  lemma GroupsKept(ms: seq<Message>)
    requires DistinctUids(ms)
    ensures Flat(CompleteGroups(ms)) == Exchanges(Dropped(ms))
  {
    GroupsAreExchanges(ms);
    DroppedIsRepaired(ms);
  }
}
