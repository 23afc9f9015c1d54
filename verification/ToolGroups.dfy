/** Finding the complete tool groups of a transcript and dropping everything that breaks the pairing. */
module ToolGroups {
  import opened Lists
  import opened Messages

  /** The first result for each id, in order, ids already seen left out. */
  function Picked(run: seq<Message>, ids: seq<string>, seen: set<string>): seq<Message> {
    if run == [] then []
    else if ResultId(run[0]) in ids && ResultId(run[0]) !in seen then
      [run[0]] + Picked(run[1..], ids, seen + {ResultId(run[0])})
    else Picked(run[1..], ids, seen)
  }

  function SeenAfter(run: seq<Message>, ids: seq<string>, seen: set<string>): set<string> {
    if run == [] then seen
    else SeenAfter(run[1..], ids, if ResultId(run[0]) in ids then seen + {ResultId(run[0])} else seen)
  }

  predicate Complete(ms: seq<Message>)
    requires ms != []
  {
    SeenAfter(Results(ms), CallIds(ms[0]), {}) == IdSet(CallIds(ms[0]))
  }

  /** An AI message with the results picked for it. */
  function Group(ms: seq<Message>): seq<Message>
    requires ms != []
  {
    [ms[0]] + Picked(Results(ms), CallIds(ms[0]), {})
  }

  /** `_complete_tool_groups` */
  function CompleteGroups(ms: seq<Message>): seq<seq<Message>>
    decreases |ms|
  {
    if ms == [] then []
    else if CallIds(ms[0]) == [] then CompleteGroups(ms[1..])
    else (if Complete(ms) then [Group(ms)] else []) + CompleteGroups(AfterResults(ms))
  }

  function Flat(gs: seq<seq<Message>>): seq<Message> {
    if gs == [] then [] else gs[0] + Flat(gs[1..])
  }

  method CompleteToolGroups(ms: seq<Message>) returns (groups: seq<seq<Message>>)
    ensures groups == CompleteGroups(ms)
  {
    groups := [];
    var index := 0;
    while index < |ms|
      invariant index <= |ms|
      invariant CompleteGroups(ms) == groups + CompleteGroups(ms[index..])
    {
      ghost var rest := ms[index..];
      var m := ms[index];
      var ids := CallIds(m);
      if ids == [] {
        assert rest[1..] == ms[index + 1..];
        index := index + 1;
      } else {
        var group, seen, next := TakeResults(ms, index);
        ghost var later := CompleteGroups(ms[next..]);
        AssocSeq(groups, [group], later);
        NilSeq(later);
        if seen == IdSet(ids) {
          groups := groups + [group];
        }
        index := next;
      }
    }
  }

  /** The inner loop: the message at `start` with the results picked for it. */
  method TakeResults(ms: seq<Message>, start: nat) returns (group: seq<Message>, seen: set<string>, index: nat)
    requires start < |ms|
    ensures group == Group(ms[start..]) && seen == SeenAfter(Results(ms[start..]), CallIds(ms[start]), {})
    ensures start < index <= |ms| && ms[index..] == AfterResults(ms[start..])
  {
    var ids := CallIds(ms[start]);
    group, seen, index := [ms[start]], {}, start + 1;
    ghost var rest := ms[start..];
    ghost var end := RunBounds(ms, start);
    while index < |ms| && ms[index].Tool?
      invariant start < index <= end
      invariant Group(rest) == group + Picked(ms[index..end], ids, seen)
      invariant SeenAfter(Results(rest), ids, {}) == SeenAfter(ms[index..end], ids, seen)
    {
      var id := ResultId(ms[index]);
      TakeStep(group, ms, index, end, ids, seen);
      if id in ids && id !in seen {
        group := group + [ms[index]];
        seen := seen + {id};
      }
      index := index + 1;
    }
    NilSeq(group);
  }

  /** One round of the inner loop. */
  lemma TakeStep(group: seq<Message>, ms: seq<Message>, index: nat, end: nat, ids: seq<string>, seen: set<string>)
    requires index < end <= |ms|
    ensures var id, run, rest := ResultId(ms[index]), ms[index..end], ms[index + 1..end];
            var taken := id in ids && id !in seen;
            var now := if taken then seen + {id} else seen;
            SeenAfter(run, ids, seen) == SeenAfter(rest, ids, now) &&
            group + Picked(run, ids, seen) == (if taken then group + [ms[index]] else group) + Picked(rest, ids, now)
  {
    var id, run := ResultId(ms[index]), ms[index..end];
    assert run[0] == ms[index] && run[1..] == ms[index + 1..end];
    if id in ids && id in seen {
      assert seen + {id} == seen;
    }
    AssocSeq(group, [run[0]], Picked(run[1..], ids, seen + {id}));
  }

  /** Where the results of the message at `start` end. */
  lemma RunBounds(ms: seq<Message>, start: nat) returns (end: nat)
    requires start < |ms|
    ensures start < end <= |ms| && Results(ms[start..]) == ms[start + 1..end] && AfterResults(ms[start..]) == ms[end..]
    ensures (forall k :: start < k < end ==> ms[k].Tool?) && (end < |ms| ==> !ms[end].Tool?)
  {
    var rest := ms[start..];
    end := start + 1 + LeadTools(rest[1..]);
    ResultsAreTools(rest);
    assert Results(rest) == ms[start + 1..end];
    assert AfterResults(rest) == ms[end..];
    forall k | start < k < end
      ensures ms[k].Tool?
    {
      assert ms[k] == Results(rest)[k - start - 1];
    }
  }

  // ----- dropping invalid sequences -----

  function Filter(ms: seq<Message>, valid: set<nat>): seq<Message> {
    if ms == [] then []
    else (if Plain(ms[0]) || ms[0].uid in valid then [ms[0]] else []) + Filter(ms[1..], valid)
  }

  function Uids(ms: seq<Message>): set<nat> {
    set m | m in ms :: m.uid
  }

  /** `_drop_invalid_tool_call_sequences` */
  function Dropped(ms: seq<Message>): seq<Message> {
    Filter(ms, Uids(Flat(CompleteGroups(ms))))
  }

  method DropInvalidToolCallSequences(ms: seq<Message>) returns (cleaned: seq<Message>)
    ensures cleaned == Dropped(ms)
  {
    var groups := CompleteToolGroups(ms);
    var valid := Uids(Flat(groups));
    cleaned := [];
    for i := 0 to |ms|
      invariant Filter(ms, valid) == cleaned + Filter(ms[i..], valid)
    {
      var m := ms[i];
      FilterStep(ms, valid, i, cleaned);
      if m.Tool? {
        if m.uid in valid {
          cleaned := cleaned + [m];
        }
        continue;
      }
      if CallIds(m) != [] && m.uid !in valid {
        continue;
      }
      cleaned := cleaned + [m];
    }
    NilSeq(cleaned);
  }

  lemma FilterStep(ms: seq<Message>, valid: set<nat>, i: nat, sofar: seq<Message>)
    requires i < |ms|
    ensures var keep := Plain(ms[i]) || ms[i].uid in valid;
            sofar + Filter(ms[i..], valid) == (if keep then sofar + [ms[i]] else sofar) + Filter(ms[i + 1..], valid)
  {
    var rest := ms[i..];
    assert rest[0] == ms[i] && rest[1..] == ms[i + 1..];
    AssocSeq(sofar, [ms[i]], Filter(ms[i + 1..], valid));
    NilSeq(Filter(ms[i + 1..], valid));
  }

  /** The same, by structure: plain messages and complete groups in order, nothing else. */
  function Repaired(ms: seq<Message>): seq<Message>
    decreases |ms|
  {
    if ms == [] then []
    else if ms[0].Tool? then Repaired(ms[1..])
    else if Plain(ms[0]) then [ms[0]] + Repaired(ms[1..])
    else (if Complete(ms) then Group(ms) else []) + Repaired(AfterResults(ms))
  }

  // ----- picking results -----

  lemma {:induction false} PickedIsSub(run: seq<Message>, ids: seq<string>, seen: set<string>)
    ensures IsSub(Picked(run, ids, seen), run)
  {
    if run != [] {
      PickedIsSub(run[1..], ids, seen + {ResultId(run[0])});
      PickedIsSub(run[1..], ids, seen);
    }
  }

  lemma {:induction false} PickedIds(run: seq<Message>, ids: seq<string>, seen: set<string>)
    ensures var p := Picked(run, ids, seen);
            NoDuplicates(ResultIds(p)) && IdSet(ResultIds(p)) !! seen &&
            SeenAfter(run, ids, seen) == seen + IdSet(ResultIds(p)) && IdSet(ResultIds(p)) <= IdSet(ids)
  {
    if run != [] {
      var id := ResultId(run[0]);
      if id in ids && id !in seen {
        var q := Picked(run[1..], ids, seen + {id});
        PickedIds(run[1..], ids, seen + {id});
        IdsCons(run[0], q);
      } else {
        PickedIds(run[1..], ids, seen);
        assert id in ids ==> seen + {id} == seen;
      }
    }
  }

  lemma IdsCons(m: Message, q: seq<Message>)
    ensures ResultIds([m] + q) == [ResultId(m)] + ResultIds(q)
    ensures IdSet(ResultIds([m] + q)) == {ResultId(m)} + IdSet(ResultIds(q))
    ensures NoDuplicates(ResultIds(q)) && ResultId(m) !in IdSet(ResultIds(q)) ==> NoDuplicates(ResultIds([m] + q))
  {
    var a, b := ResultIds([m] + q), ResultIds(q);
    assert a == [ResultId(m)] + b;
    assert forall x :: x in a <==> x == ResultId(m) || x in b;
    if NoDuplicates(b) && ResultId(m) !in IdSet(b) {
      forall i, j | 0 <= i < j < |a|
        ensures a[i] != a[j]
      {
        assert a[j] == b[j - 1];
        if i > 0 {
          assert a[i] == b[i - 1];
        }
      }
    }
  }

  lemma TailIds(run: seq<Message>)
    requires run != [] && NoDuplicates(ResultIds(run))
    ensures NoDuplicates(ResultIds(run[1..])) && ResultId(run[0]) !in ResultIds(run[1..])
  {
    var q := run[1..];
    forall i, j | 0 <= i < j < |q|
      ensures ResultIds(q)[i] != ResultIds(q)[j]
    {
      assert ResultIds(run)[i + 1] != ResultIds(run)[j + 1];
    }
    forall k | 0 <= k < |q|
      ensures ResultIds(q)[k] != ResultId(run[0])
    {
      assert ResultIds(run)[0] != ResultIds(run)[k + 1];
    }
  }

  lemma {:induction false} PickedAgain(run: seq<Message>, ids: seq<string>, seen: set<string>)
    requires NoDuplicates(ResultIds(run)) && IdSet(ResultIds(run)) <= IdSet(ids) && IdSet(ResultIds(run)) !! seen
    ensures Picked(run, ids, seen) == run && SeenAfter(run, ids, seen) == seen + IdSet(ResultIds(run))
  {
    if run != [] {
      var id, q := ResultId(run[0]), run[1..];
      assert run == [run[0]] + q;
      IdsCons(run[0], q);
      TailIds(run);
      assert ResultIds(run)[0] == id && id in IdSet(ResultIds(run));
      PickedAgain(q, ids, seen + {id});
    }
  }

  lemma {:induction false} SubOfToolsIsTools(a: seq<Message>, b: seq<Message>)
    requires IsSub(a, b) && AllTools(b)
    ensures AllTools(a)
  {
    SubMembers(a, b);
    forall k | 0 <= k < |a|
      ensures a[k].Tool?
    {
      assert a[k] in b;
    }
  }

  lemma ResultsAreTools(ms: seq<Message>)
    requires ms != []
    ensures AllTools(Results(ms)) && (AfterResults(ms) == [] || !AfterResults(ms)[0].Tool?)
    ensures ms == [ms[0]] + Results(ms) + AfterResults(ms)
  {
    LeadToolsAreTools(ms[1..]);
    assert Results(ms) == ms[1..][..LeadTools(ms[1..])];
  }

  lemma GroupFacts(ms: seq<Message>)
    requires ms != [] && CallIds(ms[0]) != []
    ensures IsSub(Group(ms), [ms[0]] + Results(ms))
    ensures Complete(ms) ==> ToolClosed(Group(ms)) && AnswersExactly(Group(ms)[1..], CallIds(ms[0]))
    ensures AllTools(Group(ms)[1..])
  {
    var p := Picked(Results(ms), CallIds(ms[0]), {});
    PickedIsSub(Results(ms), CallIds(ms[0]), {});
    PickedIds(Results(ms), CallIds(ms[0]), {});
    ResultsAreTools(ms);
    SubOfToolsIsTools(p, Results(ms));
    assert Group(ms)[1..] == p;
    assert ([ms[0]] + Results(ms))[1..] == Results(ms);
    if Complete(ms) {
      ClosedGroup(ms[0], p);
    }
  }

  // ----- what the repaired transcript is -----

  lemma {:induction false} RepairedIsClosed(ms: seq<Message>)
    ensures ToolClosed(Repaired(ms))
    decreases |ms|
  {
    if ms == [] {
    } else if ms[0].Tool? {
      RepairedIsClosed(ms[1..]);
    } else if Plain(ms[0]) {
      RepairedIsClosed(ms[1..]);
      assert Repaired(ms)[1..] == Repaired(ms[1..]);
    } else {
      RepairedIsClosed(AfterResults(ms));
      GroupFacts(ms);
      if Complete(ms) {
        ClosedAppend(Group(ms), Repaired(AfterResults(ms)));
      } else {
        assert [] + Repaired(AfterResults(ms)) == Repaired(AfterResults(ms));
      }
    }
  }

  lemma {:induction false} RepairedIsSub(ms: seq<Message>)
    ensures IsSub(Repaired(ms), ms)
    decreases |ms|
  {
    if ms == [] {
    } else if ms[0].Tool? {
      RepairedIsSub(ms[1..]);
    } else if Plain(ms[0]) {
      RepairedIsSub(ms[1..]);
      assert Repaired(ms)[1..] == Repaired(ms[1..]);
    } else {
      RepairedIsSub(AfterResults(ms));
      GroupFacts(ms);
      ResultsAreTools(ms);
      var head := if Complete(ms) then Group(ms) else [];
      SubAppend(head, [ms[0]] + Results(ms), Repaired(AfterResults(ms)), AfterResults(ms));
    }
  }

  /** The repair changes nothing exactly on tool-closed transcripts. */
  lemma {:induction false} RepairedFixesExactlyClosed(ms: seq<Message>)
    ensures Repaired(ms) == ms <==> ToolClosed(ms)
  {
    RepairedIsClosed(ms);
    if ToolClosed(ms) {
      ClosedIsRepaired(ms);
    }
  }

  lemma {:induction false} ClosedIsRepaired(ms: seq<Message>)
    requires ToolClosed(ms)
    ensures Repaired(ms) == ms
    decreases |ms|
  {
    if ms != [] {
      if Plain(ms[0]) {
        ClosedIsRepaired(ms[1..]);
      } else {
        PickedAgain(Results(ms), CallIds(ms[0]), {});
        ClosedIsRepaired(AfterResults(ms));
        ResultsAreTools(ms);
      }
    }
  }

  function Plains(ms: seq<Message>): seq<Message> {
    if ms == [] then [] else (if Plain(ms[0]) then [ms[0]] else []) + Plains(ms[1..])
  }

  lemma {:induction false} PlainsAppend(a: seq<Message>, b: seq<Message>)
    ensures Plains(a + b) == Plains(a) + Plains(b)
  {
    if a == [] {
      assert a + b == b;
    } else {
      PlainsAppend(a[1..], b);
      assert (a + b)[1..] == a[1..] + b;
      AssocSeq(if Plain(a[0]) then [a[0]] else [], Plains(a[1..]), Plains(b));
    }
  }

  lemma {:induction false} NoPlainTools(run: seq<Message>)
    requires AllTools(run)
    ensures Plains(run) == []
  {
    if run != [] {
      NoPlainTools(run[1..]);
    }
  }

  /** Every system, human and call-free AI message is kept, in order. */
  lemma {:induction false} RepairedKeepsPlains(ms: seq<Message>)
    ensures Plains(Repaired(ms)) == Plains(ms)
    decreases |ms|
  {
    if ms == [] {
    } else if ms[0].Tool? {
      RepairedKeepsPlains(ms[1..]);
      NilSeq(Plains(ms[1..]));
    } else if Plain(ms[0]) {
      RepairedKeepsPlains(ms[1..]);
    } else {
      RepairedKeepsPlains(AfterResults(ms));
      GroupPlains(ms);
      GroupRepairedPlains(ms);
    }
  }

  lemma GroupRepairedPlains(ms: seq<Message>)
    requires ms != [] && CallIds(ms[0]) != []
    ensures Plains(Repaired(ms)) == Plains(Repaired(AfterResults(ms)))
  {
    var rest := Repaired(AfterResults(ms));
    if Complete(ms) {
      GroupPlains(ms);
      PlainsAppend(Group(ms), rest);
      NilSeq(Plains(rest));
    } else {
      NilSeq(rest);
    }
  }

  /** A group and the messages it was picked from hold no plain message. */
  lemma GroupPlains(ms: seq<Message>)
    requires ms != [] && CallIds(ms[0]) != []
    ensures Plains(Group(ms)) == [] && Plains(ms) == Plains(AfterResults(ms))
  {
    GroupFacts(ms);
    PlainsOfGroup(ms[0], Group(ms)[1..]);
    ResultsAreTools(ms);
    PlainsOfGroup(ms[0], Results(ms));
    PlainsAppend([ms[0]] + Results(ms), AfterResults(ms));
    NilSeq(Plains(AfterResults(ms)));
  }

  lemma PlainsOfGroup(m: Message, run: seq<Message>)
    requires CallIds(m) != [] && AllTools(run)
    ensures Plains([m] + run) == []
  {
    NoPlainTools(run);
    assert ([m] + run)[1..] == run;
  }

  /** Every complete group is kept, and no new one appears. */
  lemma {:induction false} RepairedKeepsGroups(ms: seq<Message>)
    ensures CompleteGroups(Repaired(ms)) == CompleteGroups(ms)
    decreases |ms|
  {
    if ms == [] {
    } else if ms[0].Tool? {
      RepairedKeepsGroups(ms[1..]);
    } else if Plain(ms[0]) {
      RepairedKeepsGroups(ms[1..]);
      assert Repaired(ms)[1..] == Repaired(ms[1..]);
    } else {
      var after := AfterResults(ms);
      RepairedKeepsGroups(after);
      if Complete(ms) {
        RepairedIsClosed(after);
        GroupThen(ms, Repaired(after));
      } else {
        assert [] + Repaired(after) == Repaired(after);
      }
    }
  }

  lemma GroupThen(ms: seq<Message>, rest: seq<Message>)
    requires ms != [] && CallIds(ms[0]) != [] && Complete(ms) && ToolClosed(rest)
    ensures CompleteGroups(Group(ms) + rest) == [Group(ms)] + CompleteGroups(rest)
  {
    var g, all := Group(ms), Group(ms) + rest;
    GroupFacts(ms);
    ClosedStartsPlain(rest);
    AllToolsLead(g[1..]);
    ResultsAppend(g, rest);
    assert Results(g) == g[1..] && AfterResults(g) == [];
    assert [] + rest == rest && all[0] == ms[0];
    PickedAgain(g[1..], CallIds(ms[0]), {});
    assert Group(all) == g;
  }

  // ----- the filter by identity is the repair -----

  /** With distinct identities the code's filter and the repair agree. */
  lemma DroppedIsRepaired(ms: seq<Message>)
    requires DistinctUids(ms)
    ensures Dropped(ms) == Repaired(ms)
  {
    var flat := Flat(CompleteGroups(ms));
    FlatGroupsIsSub(ms);
    SubMembers(flat, ms);
    forall m | m in ms
      ensures m.uid in Uids(flat) <==> m in flat
    {
      if m.uid in Uids(flat) {
        var k :| k in flat && k.uid == m.uid;
      }
    }
    FilterIsRepaired(ms, Uids(flat));
  }

  lemma {:induction false} FlatGroupsIsSub(ms: seq<Message>)
    ensures IsSub(Flat(CompleteGroups(ms)), ms)
    decreases |ms|
  {
    if ms == [] {
    } else if CallIds(ms[0]) == [] {
      FlatGroupsIsSub(ms[1..]);
    } else {
      var later := CompleteGroups(AfterResults(ms));
      FlatGroupsIsSub(AfterResults(ms));
      GroupFacts(ms);
      ResultsAreTools(ms);
      var head := if Complete(ms) then Group(ms) else [];
      SubAppend(head, [ms[0]] + Results(ms), Flat(later), AfterResults(ms));
      FlatStep(ms);
    }
  }

  lemma FlatStep(ms: seq<Message>)
    requires ms != [] && CallIds(ms[0]) != []
    ensures Flat(CompleteGroups(ms)) ==
            (if Complete(ms) then Group(ms) else []) + Flat(CompleteGroups(AfterResults(ms)))
  {
    var later := CompleteGroups(AfterResults(ms));
    if Complete(ms) {
      assert ([Group(ms)] + later)[1..] == later;
    } else {
      assert [] + later == later && [] + Flat(later) == Flat(later);
    }
  }

  lemma {:induction false} FilterAppend(a: seq<Message>, b: seq<Message>, valid: set<nat>)
    ensures Filter(a + b, valid) == Filter(a, valid) + Filter(b, valid)
  {
    if a == [] {
      assert a + b == b;
    } else {
      FilterAppend(a[1..], b, valid);
      assert (a + b)[0] == a[0] && (a + b)[1..] == a[1..] + b;
      var head := if Plain(a[0]) || a[0].uid in valid then [a[0]] else [];
      AssocSeq(head, Filter(a[1..], valid), Filter(b, valid));
      assert Filter(a, valid) == head + Filter(a[1..], valid);
    }
  }

  /** Filtering a list by membership in a subsequence of it gives that subsequence. */
  lemma {:induction false} FilterToSub(a: seq<Message>, b: seq<Message>, valid: set<nat>)
    requires IsSub(a, b) && DistinctUids(b)
    requires forall m :: m in b ==> !Plain(m) && (m.uid in valid <==> m in a)
    ensures Filter(b, valid) == a
    decreases |b|
  {
    if b != [] {
      assert b == [b[0]] + b[1..];
      if a != [] && a[0] == b[0] && IsSub(a[1..], b[1..]) {
        assert a == [a[0]] + a[1..];
        FilterToSub(a[1..], b[1..], valid);
      } else {
        SubMembers(a, b[1..]);
        FilterToSub(a, b[1..], valid);
      }
    }
  }

  lemma {:induction false} FilterIsRepaired(ms: seq<Message>, valid: set<nat>)
    requires DistinctUids(ms)
    requires forall m :: m in ms ==> (m.uid in valid <==> m in Flat(CompleteGroups(ms)))
    ensures Filter(ms, valid) == Repaired(ms)
    decreases |ms|
  {
    if ms != [] {
      if CallIds(ms[0]) == [] {
        LoneFilter(ms, valid);
        FilterIsRepaired(ms[1..], valid);
      } else {
        GroupFilter(ms, valid);
        FilterIsRepaired(AfterResults(ms), valid);
      }
    }
  }

  /** A message without calls: the filter keeps it if it is plain, and what follows is independent. */
  lemma LoneFilter(ms: seq<Message>, valid: set<nat>)
    requires DistinctUids(ms) && ms != [] && CallIds(ms[0]) == []
    requires forall m :: m in ms ==> (m.uid in valid <==> m in Flat(CompleteGroups(ms)))
    ensures var rest := ms[1..];
            Filter(ms, valid) == (if Plain(ms[0]) then [ms[0]] else []) + Filter(rest, valid) &&
            DistinctUids(rest) && forall m :: m in rest ==> (m.uid in valid <==> m in Flat(CompleteGroups(rest)))
  {
    assert ms == [ms[0]] + ms[1..];
    FlatGroupsIsSub(ms[1..]);
    SubMembers(Flat(CompleteGroups(ms[1..])), ms[1..]);
    HeadNotInTail(ms);
  }

  /** One AI message with calls: the filter keeps its group or nothing, and what follows is independent. */
  lemma GroupFilter(ms: seq<Message>, valid: set<nat>)
    requires DistinctUids(ms) && ms != [] && CallIds(ms[0]) != []
    requires forall m :: m in ms ==> (m.uid in valid <==> m in Flat(CompleteGroups(ms)))
    ensures var after := AfterResults(ms);
            Filter(ms, valid) == (if Complete(ms) then Group(ms) else []) + Filter(after, valid) &&
            DistinctUids(after) && forall m :: m in after ==> (m.uid in valid <==> m in Flat(CompleteGroups(after)))
  {
    var head, after := [ms[0]] + Results(ms), AfterResults(ms);
    var kept := if Complete(ms) then Group(ms) else [];
    var later := Flat(CompleteGroups(after));
    ResultsAreTools(ms);
    GroupFacts(ms);
    FlatStep(ms);
    FlatGroupsIsSub(after);
    SubMembers(later, after);
    SubMembers(kept, head);
    Apart(head, after, ms);
    assert forall m :: m in head + after <==> m in head || m in after;
    assert forall m :: m in kept + later <==> m in kept || m in later;
    FilterAppend(head, after, valid);
    FilterToSub(kept, head, valid);
  }

  lemma Apart(a: seq<Message>, b: seq<Message>, ms: seq<Message>)
    requires ms == a + b && DistinctUids(ms)
    ensures DistinctUids(a) && DistinctUids(b) && forall m :: m in a ==> m !in b
  {
    forall i, j | 0 <= i < j < |a|
      ensures a[i].uid != a[j].uid
    {
      assert ms[i] == a[i] && ms[j] == a[j];
    }
    forall i, j | 0 <= i < j < |b|
      ensures b[i].uid != b[j].uid
    {
      assert ms[|a| + i] == b[i] && ms[|a| + j] == b[j];
    }
    forall i, j | 0 <= i < |a| && 0 <= j < |b|
      ensures a[i] != b[j]
    {
      assert ms[i] == a[i] && ms[|a| + j] == b[j];
    }
  }

  /** `_drop_invalid_tool_call_sequences` over transcripts of distinct messages: a tool-closed subsequence that
      keeps every plain message and every complete group, the identity exactly on tool-closed transcripts,
      hence idempotent. */
  lemma GroupFilterTheorem(ms: seq<Message>)
    requires DistinctUids(ms)
    ensures var r := Dropped(ms);
            ToolClosed(r) && IsSub(r, ms) && Plains(r) == Plains(ms) && CompleteGroups(r) == CompleteGroups(ms) &&
            (r == ms <==> ToolClosed(ms)) && Dropped(r) == r
  {
    DroppedIsRepaired(ms);
    RepairedIsClosed(ms);
    RepairedIsSub(ms);
    RepairedKeepsPlains(ms);
    RepairedKeepsGroups(ms);
    RepairedFixesExactlyClosed(ms);
    SubDistinct(Repaired(ms), ms);
    DroppedIsRepaired(Repaired(ms));
    RepairedFixesExactlyClosed(Repaired(ms));
  }
}
