/** Merging start and end events into one persisted record per tool call. */
module ToolActivities {
  import opened Options
  import opened Text

  datatype Event =
    | Start(tool: string, callId: string, at: int, input: string)
    | End(tool: string, callId: string, at: int, failed: bool, result: string)
    | Other

  /** `callId` is "" for a record without one. */
  datatype Record = Record(tool: string, callId: string, failed: bool, startedAt: int, finishedAt: Option<int>,
                           input: string, result: string)

  /** The records so far and, for each call id, the latest record started under it. */
  datatype State = State(records: seq<Record>, byId: map<string, nat>)

  /** The last unfinished record of the tool that carries no call id. */
  function LastAnonymous(rs: seq<Record>, tool: string): Option<nat> {
    if rs == [] then None
    else
      var i := |rs| - 1;
      if rs[i].tool == tool && rs[i].finishedAt == None && rs[i].callId == "" then Some(i)
      else LastAnonymous(rs[..i], tool)
  }

  predicate Consistent(s: State) {
    forall id :: id in s.byId ==> id != "" && s.byId[id] < |s.records| && s.records[s.byId[id]].callId == id
  }

  lemma {:induction false} LastAnonymousFacts(rs: seq<Record>, tool: string)
    ensures var r := LastAnonymous(rs, tool);
            r.Some? ==>
              r.value < |rs| && rs[r.value].tool == tool && rs[r.value].finishedAt == None && rs[r.value].callId == ""
  {
    if rs != [] {
      LastAnonymousFacts(rs[..|rs| - 1], tool);
    }
  }

  /** The record an end event finishes, if any. */
  function Target(s: State, e: Event): (r: Option<nat>)
    requires Consistent(s) && e.End?
    ensures r.Some? ==> r.value < |s.records| && s.records[r.value].finishedAt == None
  {
    var id := Strip(e.callId);
    LastAnonymousFacts(s.records, e.tool);
    if id != "" && id in s.byId then (if s.records[s.byId[id]].finishedAt == None then Some(s.byId[id]) else None)
    else LastAnonymous(s.records, e.tool)
  }

  function Finish(r: Record, e: Event): Record
    requires e.End?
  {
    r.(failed := e.failed, finishedAt := Some(e.at), result := if e.result == "" then r.result else e.result)
  }

  function Started(e: Event): Record
    requires e.Start?
  {
    Record(e.tool, Strip(e.callId), false, e.at, None, e.input, "")
  }

  function Step(s: State, e: Event): (t: State)
    requires Consistent(s)
    ensures Consistent(t)
  {
    match e
    case Start(_, callId, _, _) =>
      var id := Strip(callId);
      State(s.records + [Started(e)], if id != "" then s.byId[id := |s.records|] else s.byId)
    case End(_, _, _, _, _) =>
      (match Target(s, e)
       case None => s
       case Some(i) => s.(records := s.records[i := Finish(s.records[i], e)]))
    case Other => s
  }

  /** What one event does to a record that is there. */
  lemma StepOnRecord(s: State, e: Event, i: nat)
    requires Consistent(s) && i < |s.records|
    ensures i < |Step(s, e).records|
    ensures Step(s, e).records[i] ==
            if e.End? && Target(s, e) == Some(i) then Finish(s.records[i], e) else s.records[i]
  {
  }

  /** A start adds its record at the end and its id to the index; no other event adds anything. */
  lemma StepAdds(s: State, e: Event)
    requires Consistent(s)
    ensures var t := Step(s, e);
            if e.Start? then
              |t.records| == |s.records| + 1 && t.records[|s.records|] == Started(e) &&
              t.byId == if Strip(e.callId) != "" then s.byId[Strip(e.callId) := |s.records|] else s.byId
            else |t.records| == |s.records| && t.byId == s.byId
  {
  }

  /** The state after the first n events. */
  function Run(es: seq<Event>, n: nat): (s: State)
    requires n <= |es|
    ensures Consistent(s)
  {
    if n == 0 then State([], map[]) else Step(Run(es, n - 1), es[n - 1])
  }

  /** A record that never ended gets its start time, and an error when the run itself failed. */
  function Closed(r: Record, unfinishedError: bool, error: string): Record {
    if r.finishedAt.Some? then r
    else
      var t := r.(finishedAt := Some(r.startedAt));
      if !unfinishedError then t else t.(failed := true, result := if error == "" then r.result else error)
  }

  function CloseAll(rs: seq<Record>, unfinishedError: bool, error: string): seq<Record> {
    seq(|rs|, i requires 0 <= i < |rs| => Closed(rs[i], unfinishedError, error))
  }

  /** `to_persisted_activities` */
  method ToPersistedActivities(events: seq<Event>, unfinishedError: bool, error: string) returns (result: seq<Record>)
    ensures result == CloseAll(Run(events, |events|).records, unfinishedError, error)
    ensures IsPersisted(result, events, unfinishedError, error)
  {
    PersistedExactly(events, unfinishedError, error);
    var records: seq<Record>, byId: map<string, nat> := [], map[];
    for i := 0 to |events|
      invariant State(records, byId) == Run(events, i)
    {
      records, byId := Merge(records, byId, events[i]);
    }
    result := [];
    for i := 0 to |records|
      invariant result == CloseAll(records[..i], unfinishedError, error)
    {
      result := result + [Closed(records[i], unfinishedError, error)];
    }
    assert records[..|records|] == records;
  }

  /** The body of the loop over the events. */
  method Merge(records0: seq<Record>, byId0: map<string, nat>, e: Event)
      returns (records: seq<Record>, byId: map<string, nat>)
    requires Consistent(State(records0, byId0))
    ensures State(records, byId) == Step(State(records0, byId0), e)
  {
    records, byId := records0, byId0;
    match e {
      case Start(tool, callId, at, input) =>
        var id := Strip(callId);
        if id != "" {
          byId := byId[id := |records|];
        }
        records := records + [Record(tool, id, false, at, None, input, "")];
      case End(tool, callId, at, failed, res) =>
        var id := Strip(callId);
        var found;
        if id != "" && id in byId {
          found := Some(byId[id]);
        } else {
          found := FindAnonymous(records, tool);
          LastAnonymousFacts(records, tool);
        }
        if found.Some? && records[found.value].finishedAt == None {
          records := records[found.value := Finish(records[found.value], e)];
        }
      case Other =>
    }
  }

  /** The reversed search for a record without call id. */
  method FindAnonymous(records: seq<Record>, tool: string) returns (r: Option<nat>)
    ensures r == LastAnonymous(records, tool)
  {
    var i := |records|;
    assert records[..i] == records;
    while i > 0
      invariant 0 <= i <= |records| && LastAnonymous(records, tool) == LastAnonymous(records[..i], tool)
    {
      assert records[..i][..i - 1] == records[..i - 1];
      i := i - 1;
      if records[i].tool == tool && records[i].finishedAt == None && records[i].callId == "" {
        return Some(i);
      }
    }
    r := None;
  }

  // ----- one record per start -----

  function Starts(es: seq<Event>, n: nat): (starts: seq<Event>)
    requires n <= |es|
    ensures forall i :: 0 <= i < |starts| ==> starts[i].Start?
  {
    if n == 0 then [] else Starts(es, n - 1) + (if es[n - 1].Start? then [es[n - 1]] else [])
  }

  /** Nothing an end event changes. */
  predicate SameCall(r: Record, e: Event) {
    e.Start? && r.tool == e.tool && r.callId == Strip(e.callId) && r.startedAt == e.at && r.input == e.input
  }

  /** One record per start event, in start order. */
  lemma {:induction false} OneRecordPerStart(es: seq<Event>, n: nat)
    requires n <= |es|
    ensures |Run(es, n).records| == |Starts(es, n)|
    ensures forall i :: 0 <= i < |Starts(es, n)| ==> SameCall(Run(es, n).records[i], Starts(es, n)[i])
  {
    if n > 0 {
      OneRecordPerStart(es, n - 1);
      var s, e := Run(es, n - 1), es[n - 1];
      StepAdds(s, e);
      forall i | 0 <= i < |Starts(es, n)|
        ensures SameCall(Step(s, e).records[i], Starts(es, n)[i])
      {
        if i < |s.records| {
          StepOnRecord(s, e, i);
          assert SameCall(s.records[i], Starts(es, n - 1)[i]);
        }
      }
    }
  }

  // ----- each end finishes at most one record, each record is finished at most once -----

  /** The record the k-th event finishes. */
  function FinishedBy(es: seq<Event>, k: nat): Option<nat>
    requires k < |es|
  {
    if es[k].End? then Target(Run(es, k), es[k]) else None
  }

  /** What one event does to a record that is there. */
  lemma OneEvent(es: seq<Event>, k: nat, i: nat)
    requires k < |es| && i < |Run(es, k).records|
    ensures i < |Run(es, k + 1).records|
    ensures Run(es, k + 1).records[i] ==
            if FinishedBy(es, k) == Some(i) then Finish(Run(es, k).records[i], es[k]) else Run(es, k).records[i]
  {
    StepOnRecord(Run(es, k), es[k], i);
  }

  predicate Holds(s: State, i: nat, r: Record) {
    i < |s.records| && s.records[i] == r
  }

  lemma FinishedHolds(es: seq<Event>, k: nat, i: nat, r: Record)
    requires k < |es| && Holds(Run(es, k), i, r) && r.finishedAt.Some?
    ensures FinishedBy(es, k) != Some(i) && Holds(Run(es, k + 1), i, r)
  {
    OneEvent(es, k, i);
  }

  lemma {:induction false} FinishedStays(es: seq<Event>, a: nat, b: nat, i: nat, r: Record)
    requires a <= b <= |es| && Holds(Run(es, a), i, r) && r.finishedAt.Some?
    ensures Holds(Run(es, b), i, r)
    decreases b
  {
    if a < b {
      FinishedStays(es, a, b - 1, i, r);
      FinishedHolds(es, b - 1, i, r);
    }
  }

  /** No record is finished by two events. */
  lemma FinishedAtMostOnce(es: seq<Event>, a: nat, b: nat, i: nat)
    requires a < b < |es| && FinishedBy(es, a) == Some(i)
    ensures FinishedBy(es, b) != Some(i)
  {
    OneEvent(es, a, i);
    var r := Run(es, a + 1).records[i];
    FinishedStays(es, a + 1, b, i, r);
    FinishedHolds(es, b, i, r);
  }

  /** A record that appears with an event is the started one, unfinished. */
  lemma NewRecord(es: seq<Event>, k: nat, i: nat)
    requires k < |es| && |Run(es, k).records| <= i < |Run(es, k + 1).records|
    ensures es[k].Start? && i == |Run(es, k).records| && Run(es, k + 1).records[i] == Started(es[k])
  {
    StepAdds(Run(es, k), es[k]);
  }

  lemma StartAdds(es: seq<Event>, k: nat)
    requires k < |es| && es[k].Start?
    ensures var i := |Run(es, k).records|;
            i < |Run(es, k + 1).records| && Run(es, k + 1).records[i] == Started(es[k])
  {
    StepAdds(Run(es, k), es[k]);
  }

  /** Some event before position n finished record i, with this status and time. */
  predicate FinishedAs(es: seq<Event>, n: nat, i: nat, r: Record)
    requires n <= |es|
  {
    exists k ::
      0 <= k < n && FinishedBy(es, k) == Some(i) && r.failed == es[k].failed && r.finishedAt == Some(es[k].at) &&
      r.result == es[k].result
  }

  /** No event before position n finished record i. */
  predicate Unfinished(es: seq<Event>, n: nat, i: nat)
    requires n <= |es|
  {
    forall k :: 0 <= k < n ==> FinishedBy(es, k) != Some(i)
  }

  predicate OutcomeIs(es: seq<Event>, n: nat, i: nat, r: Record)
    requires n <= |es|
  {
    if r.finishedAt == None then !r.failed && r.result == "" && Unfinished(es, n, i) else FinishedAs(es, n, i, r)
  }

  lemma OutcomeStep(es: seq<Event>, k: nat, i: nat, r: Record)
    requires k < |es| && OutcomeIs(es, k, i, r) && (FinishedBy(es, k) == Some(i) ==> r.finishedAt == None)
    ensures OutcomeIs(es, k + 1, i, if FinishedBy(es, k) == Some(i) then Finish(r, es[k]) else r)
  {
    if FinishedBy(es, k) == Some(i) {
      assert FinishedAs(es, k + 1, i, Finish(r, es[k]));
    } else if r.finishedAt.Some? {
      var j :| 0 <= j < k && FinishedBy(es, j) == Some(i) && r.failed == es[j].failed &&
               r.finishedAt == Some(es[j].at) && r.result == es[j].result;
      assert FinishedAs(es, k + 1, i, r);
    }
  }

  lemma OutcomeNext(es: seq<Event>, k: nat, i: nat)
    requires k < |es| && i < |Run(es, k).records| && OutcomeIs(es, k, i, Run(es, k).records[i])
    ensures i < |Run(es, k + 1).records| && OutcomeIs(es, k + 1, i, Run(es, k + 1).records[i])
  {
    OneEvent(es, k, i);
    OutcomeStep(es, k, i, Run(es, k).records[i]);
  }

  /** A record ends finished by exactly the event that finishes it, or unfinished when no event does. */
  lemma {:induction false} OutcomeOfRecord(es: seq<Event>, n: nat, i: nat)
    requires n <= |es| && i < |Run(es, n).records|
    ensures OutcomeIs(es, n, i, Run(es, n).records[i])
    decreases n
  {
    if n > 0 {
      if i < |Run(es, n - 1).records| {
        OutcomeOfRecord(es, n - 1, i);
        OutcomeNext(es, n - 1, i);
      } else {
        NotYetStarted(es, n, i);
        NewRecord(es, n - 1, i);
      }
    }
  }

  lemma {:induction false} RecordsGrow(es: seq<Event>, a: nat, b: nat)
    requires a <= b <= |es|
    ensures |Run(es, a).records| <= |Run(es, b).records|
    decreases b
  {
    if a < b {
      RecordsGrow(es, a, b - 1);
      StepAdds(Run(es, b - 1), es[b - 1]);
    }
  }

  lemma FinishedIsThere(es: seq<Event>, k: nat)
    requires k < |es|
    ensures FinishedBy(es, k).Some? ==> FinishedBy(es, k).value < |Run(es, k).records|
  {
  }

  lemma NotYetStarted(es: seq<Event>, n: nat, i: nat)
    requires 0 < n <= |es| && i >= |Run(es, n - 1).records|
    ensures Unfinished(es, n, i)
  {
    forall k | 0 <= k < n
      ensures FinishedBy(es, k) != Some(i)
    {
      FinishedIsThere(es, k);
      RecordsGrow(es, k, n - 1);
    }
  }

  /** An end event never finishes a record carrying a different call id. */
  lemma EndKeepsToItsCall(es: seq<Event>, k: nat, i: nat)
    requires k < |es| && FinishedBy(es, k) == Some(i)
    ensures var r := Run(es, k).records[i]; r.callId == "" || r.callId == Strip(es[k].callId)
  {
    LastAnonymousFacts(Run(es, k).records, es[k].tool);
  }

  // ----- parallel calls with distinct ids -----

  /** Every start carries a call id not used by another start. */
  predicate DistinctStarts(es: seq<Event>) {
    (forall p :: 0 <= p < |es| && es[p].Start? ==> Strip(es[p].callId) != "") &&
    forall p, q :: 0 <= p < q < |es| && es[p].Start? && es[q].Start? ==> Strip(es[p].callId) != Strip(es[q].callId)
  }

  /** With distinct ids the index of a call id never moves. */
  lemma {:induction false} IdStays(es: seq<Event>, p: nat, n: nat)
    requires DistinctStarts(es) && p < n <= |es| && es[p].Start?
    ensures var id := Strip(es[p].callId);
            id in Run(es, n).byId && Run(es, n).byId[id] == |Run(es, p).records|
    decreases n
  {
    StepAdds(Run(es, n - 1), es[n - 1]);
    if n > p + 1 {
      IdStays(es, p, n - 1);
      assert es[n - 1].Start? ==> Strip(es[p].callId) != Strip(es[n - 1].callId);
    }
  }

  lemma NotItsEnd(es: seq<Event>, k: nat, i: nat)
    requires k < |es| && i < |Run(es, k).records| && Run(es, k).records[i].callId != ""
    requires es[k].End? ==> Strip(es[k].callId) != Run(es, k).records[i].callId
    ensures FinishedBy(es, k) != Some(i)
  {
    if FinishedBy(es, k) == Some(i) {
      EndKeepsToItsCall(es, k, i);
      assert false;
    }
  }

  /** Until its own end arrives a started record stays unfinished. */
  lemma {:induction false} StaysOpen(es: seq<Event>, p: nat, n: nat)
    requires p < n <= |es| && es[p].Start? && Strip(es[p].callId) != ""
    requires forall k :: p < k < n && es[k].End? ==> Strip(es[k].callId) != Strip(es[p].callId)
    ensures OpenRecord(Run(es, n), |Run(es, p).records|, Strip(es[p].callId))
    decreases n
  {
    if n > p + 1 {
      StaysOpen(es, p, n - 1);
      OpenAfter(es, n - 1, |Run(es, p).records|, Strip(es[p].callId));
    } else {
      StartAdds(es, p);
    }
  }

  predicate OpenRecord(s: State, i: nat, id: string) {
    i < |s.records| && s.records[i].finishedAt == None && s.records[i].callId == id
  }

  lemma OpenAfter(es: seq<Event>, k: nat, i: nat, id: string)
    requires k < |es| && OpenRecord(Run(es, k), i, id) && id != "" && (es[k].End? ==> Strip(es[k].callId) != id)
    ensures OpenRecord(Run(es, k + 1), i, id)
  {
    NotItsEnd(es, k, i);
    OneEvent(es, k, i);
  }

  /** With distinct ids, in every interleaving of parallel calls the record of a call takes status and time from the
      first end event with its own id, and keeps them. */
  lemma EachCallGetsItsOwnEnd(es: seq<Event>, p: nat, q: nat)
    requires DistinctStarts(es) && p < q < |es| && es[p].Start? && es[q].End?
    requires Strip(es[q].callId) == Strip(es[p].callId)
    requires forall k :: p < k < q && es[k].End? ==> Strip(es[k].callId) != Strip(es[p].callId)
    ensures var i := |Run(es, p).records|;
            i < |Run(es, |es|).records| && SameCall(Run(es, |es|).records[i], es[p]) &&
            Run(es, |es|).records[i].failed == es[q].failed && Run(es, |es|).records[i].finishedAt == Some(es[q].at)
  {
    var i := |Run(es, p).records|;
    EndsItsCall(es, p, q);
    FinishedStays(es, q + 1, |es|, i, Run(es, q + 1).records[i]);
    StartedAt(es, p, |es|);
  }

  lemma EndsItsCall(es: seq<Event>, p: nat, q: nat)
    requires DistinctStarts(es) && p < q < |es| && es[p].Start? && es[q].End?
    requires Strip(es[q].callId) == Strip(es[p].callId)
    requires forall k :: p < k < q && es[k].End? ==> Strip(es[k].callId) != Strip(es[p].callId)
    ensures var i := |Run(es, p).records|;
            i < |Run(es, q + 1).records| && Run(es, q + 1).records[i].failed == es[q].failed &&
            Run(es, q + 1).records[i].finishedAt == Some(es[q].at)
  {
    IdStays(es, p, q);
    StaysOpen(es, p, q);
    OneEvent(es, q, |Run(es, p).records|);
  }

  lemma {:induction false} StartedAt(es: seq<Event>, p: nat, n: nat)
    requires p < n <= |es| && es[p].Start?
    ensures |Run(es, p).records| < |Run(es, n).records| &&
            SameCall(Run(es, n).records[|Run(es, p).records|], es[p])
    decreases n
  {
    if n > p + 1 {
      StartedAt(es, p, n - 1);
      OneEvent(es, n - 1, |Run(es, p).records|);
    } else {
      StartAdds(es, p);
    }
  }

  // ----- which record an end finishes, told from the events before it -----

  /** The last start so far with the id. */
  predicate LastStart(es: seq<Event>, k: nat, id: string, i: nat)
    requires k <= |es|
  {
    var starts := Starts(es, k);
    i < |starts| && Strip(starts[i].callId) == id &&
    forall j :: i < j < |starts| ==> Strip(starts[j].callId) != id
  }

  predicate NoStart(es: seq<Event>, k: nat, id: string)
    requires k <= |es|
  {
    var starts := Starts(es, k);
    forall j :: 0 <= j < |starts| ==> Strip(starts[j].callId) != id
  }

  /** An unfinished start of the tool without an id. */
  predicate OpenAnonymous(es: seq<Event>, k: nat, tool: string, i: nat)
    requires k <= |es|
  {
    var starts := Starts(es, k);
    i < |starts| && starts[i].tool == tool && Strip(starts[i].callId) == "" && Unfinished(es, k, i)
  }

  /** The call an end event at k belongs to: the last start with its id, or without such a start the last open one of
      its tool that has no id; and that call is not finished yet. */
  predicate BelongsTo(es: seq<Event>, k: nat, i: nat)
    requires k < |es|
  {
    es[k].End? &&
    var id := Strip(es[k].callId);
    if id != "" && !NoStart(es, k, id) then LastStart(es, k, id, i) && Unfinished(es, k, i)
    else OpenAnonymous(es, k, es[k].tool, i) &&
         forall j: nat :: i < j < |Starts(es, k)| ==> !OpenAnonymous(es, k, es[k].tool, j)
  }

  lemma {:induction false} ByIdIs(es: seq<Event>, n: nat, id: string)
    requires n <= |es| && id != ""
    ensures var byId := Run(es, n).byId;
            (id in byId <==> !NoStart(es, n, id)) && (id in byId ==> LastStart(es, n, id, byId[id]))
    decreases n
  {
    if n > 0 {
      ByIdIs(es, n - 1, id);
      IdStep(es, n, id);
      IndexStep(es, n, id);
    }
  }

  lemma IndexStep(es: seq<Event>, n: nat, id: string)
    requires 0 < n <= |es| && id != ""
    ensures var e, was, byId := es[n - 1], Run(es, n - 1).byId, Run(es, n).byId;
            if e.Start? && Strip(e.callId) == id then id in byId && byId[id] == |Starts(es, n - 1)|
            else (id in byId <==> id in was) && (id in byId ==> byId[id] == was[id])
  {
    StepAdds(Run(es, n - 1), es[n - 1]);
    OneRecordPerStart(es, n - 1);
  }

  lemma IdStep(es: seq<Event>, n: nat, id: string)
    requires 0 < n <= |es|
    ensures var e, starts := es[n - 1], Starts(es, n - 1);
            if e.Start? && Strip(e.callId) == id then LastStart(es, n, id, |starts|)
            else (NoStart(es, n, id) <==> NoStart(es, n - 1, id)) &&
                 forall i: nat :: LastStart(es, n, id, i) <==> LastStart(es, n - 1, id, i)
  {
    var e, starts, all := es[n - 1], Starts(es, n - 1), Starts(es, n);
    if !e.Start? {
      assert all == starts;
    } else {
      assert all == starts + [e] && all[|starts|] == e;
      assert forall j :: 0 <= j < |starts| ==> all[j] == starts[j];
      if Strip(e.callId) != id {
        forall j | 0 <= j < |all|
          ensures Strip(all[j].callId) == id ==> j < |starts| && Strip(starts[j].callId) == id
        {
        }
        forall i: nat
          ensures LastStart(es, n, id, i) <==> LastStart(es, n - 1, id, i)
        {
          if LastStart(es, n, id, i) {
            assert forall j :: i < j < |starts| ==> starts[j] == all[j];
          }
        }
        if NoStart(es, n, id) {
          assert forall j :: 0 <= j < |starts| ==> starts[j] == all[j];
        }
      }
    }
  }

  lemma {:induction false} LastAnonymousIs(rs: seq<Record>, tool: string)
    ensures match LastAnonymous(rs, tool)
            case Some(i) => i < |rs| && forall j :: i < j < |rs| ==> !IsAnonymous(rs[j], tool)
            case None => forall j :: 0 <= j < |rs| ==> !IsAnonymous(rs[j], tool)
  {
    if rs != [] {
      LastAnonymousFacts(rs, tool);
      LastAnonymousIs(rs[..|rs| - 1], tool);
      assert forall j :: 0 <= j < |rs| - 1 ==> rs[..|rs| - 1][j] == rs[j];
    }
  }

  predicate IsAnonymous(r: Record, tool: string) {
    r.tool == tool && r.finishedAt == None && r.callId == ""
  }

  lemma RecordsAre(es: seq<Event>, k: nat, i: nat)
    requires k <= |es| && i < |Run(es, k).records|
    ensures i < |Starts(es, k)| && SameCall(Run(es, k).records[i], Starts(es, k)[i]) &&
            (Run(es, k).records[i].finishedAt == None <==> Unfinished(es, k, i))
  {
    OneRecordPerStart(es, k);
    OutcomeOfRecord(es, k, i);
  }

  lemma AnonymousIs(es: seq<Event>, k: nat, tool: string, i: nat)
    requires k <= |es|
    ensures OpenAnonymous(es, k, tool, i) <==>
            i < |Run(es, k).records| && IsAnonymous(Run(es, k).records[i], tool)
  {
    OneRecordPerStart(es, k);
    if i < |Run(es, k).records| {
      RecordsAre(es, k, i);
    }
  }

  lemma LastStartIsOne(es: seq<Event>, k: nat, id: string, i: nat, j: nat)
    requires k <= |es| && LastStart(es, k, id, i) && LastStart(es, k, id, j)
    ensures i == j
  {
  }

  lemma FinishesById(es: seq<Event>, k: nat, i: nat)
    requires k < |es| && es[k].End? && Strip(es[k].callId) != "" && !NoStart(es, k, Strip(es[k].callId))
    ensures FinishedBy(es, k) == Some(i) <==> LastStart(es, k, Strip(es[k].callId), i) && Unfinished(es, k, i)
  {
    var id, s := Strip(es[k].callId), Run(es, k);
    ByIdIs(es, k, id);
    RecordsAre(es, k, s.byId[id]);
    if LastStart(es, k, id, i) {
      LastStartIsOne(es, k, id, i, s.byId[id]);
    }
  }

  lemma FinishesAnonymous(es: seq<Event>, k: nat, i: nat)
    requires k < |es| && es[k].End? && (Strip(es[k].callId) != "" ==> NoStart(es, k, Strip(es[k].callId)))
    ensures FinishedBy(es, k) == Some(i) <==>
            OpenAnonymous(es, k, es[k].tool, i) &&
            forall j: nat :: i < j < |Starts(es, k)| ==> !OpenAnonymous(es, k, es[k].tool, j)
  {
    var s, tool := Run(es, k), es[k].tool;
    if Strip(es[k].callId) != "" {
      ByIdIs(es, k, Strip(es[k].callId));
    }
    OneRecordPerStart(es, k);
    LastAnonymousFacts(s.records, tool);
    LastAnonymousIs(s.records, tool);
    forall j: nat
      ensures OpenAnonymous(es, k, tool, j) <==> j < |s.records| && IsAnonymous(s.records[j], tool)
    {
      AnonymousIs(es, k, tool, j);
    }
  }

  /** An end event finishes exactly the call it belongs to. */
  lemma FinishesExactly(es: seq<Event>, k: nat, i: nat)
    requires k < |es|
    ensures FinishedBy(es, k) == Some(i) <==> BelongsTo(es, k, i)
  {
    if es[k].End? {
      if Strip(es[k].callId) != "" && !NoStart(es, k, Strip(es[k].callId)) {
        FinishesById(es, k, i);
      } else {
        FinishesAnonymous(es, k, i);
      }
    }
  }

  // ----- the records as stored -----

  /** The call as stored when an end event belongs to it: status, time and summary are those of the end. */
  predicate StoredFinished(r: Record, e: Event) {
    e.End? && r.failed == e.failed && r.finishedAt == Some(e.at) && r.result == e.result
  }

  /** A call that never ended: it ends at its start, failed exactly when the run left its calls in error, with the text
      of that error if there is one. */
  predicate StoredUnfinished(r: Record, unfinishedError: bool, error: string) {
    r.finishedAt == Some(r.startedAt) && r.failed == unfinishedError &&
    r.result == if unfinishedError then error else ""
  }

  /** The stored records: one for each start, in order, finished by the end event that belongs to it. */
  ghost predicate IsPersisted(result: seq<Record>, es: seq<Event>, unfinishedError: bool, error: string) {
    var starts := Starts(es, |es|);
    |result| == |starts| &&
    forall i :: 0 <= i < |result| ==>
                  SameCall(result[i], starts[i]) &&
                  (forall k :: 0 <= k < |es| && BelongsTo(es, k, i) ==> StoredFinished(result[i], es[k])) &&
                  ((forall k :: 0 <= k < |es| ==> !BelongsTo(es, k, i)) ==>
                     StoredUnfinished(result[i], unfinishedError, error))
  }

  lemma OneStored(es: seq<Event>, i: nat, unfinishedError: bool, error: string)
    requires i < |Run(es, |es|).records|
    ensures var r := Closed(Run(es, |es|).records[i], unfinishedError, error);
            i < |Starts(es, |es|)| && SameCall(r, Starts(es, |es|)[i]) &&
            (forall k :: 0 <= k < |es| && BelongsTo(es, k, i) ==> StoredFinished(r, es[k])) &&
            ((forall k :: 0 <= k < |es| ==> !BelongsTo(es, k, i)) ==> StoredUnfinished(r, unfinishedError, error))
  {
    var was := Run(es, |es|).records[i];
    OneRecordPerStart(es, |es|);
    assert SameCall(was, Starts(es, |es|)[i]);
    OutcomeOfRecord(es, |es|, i);
    forall k: nat | k < |es|
      ensures FinishedBy(es, k) == Some(i) <==> BelongsTo(es, k, i)
    {
      FinishesExactly(es, k, i);
    }
    if was.finishedAt.Some? {
      var j :| 0 <= j < |es| && FinishedBy(es, j) == Some(i) && was.failed == es[j].failed &&
               was.finishedAt == Some(es[j].at) && was.result == es[j].result;
      forall k: nat | k < |es| && FinishedBy(es, k) == Some(i)
        ensures k == j
      {
        if k < j {
          FinishedAtMostOnce(es, k, j, i);
        } else if j < k {
          FinishedAtMostOnce(es, j, k, i);
        }
      }
    }
  }

  /** What is stored for any list of events. */
  lemma PersistedExactly(es: seq<Event>, unfinishedError: bool, error: string)
    ensures IsPersisted(CloseAll(Run(es, |es|).records, unfinishedError, error), es, unfinishedError, error)
  {
    OneRecordPerStart(es, |es|);
    forall i | 0 <= i < |Run(es, |es|).records|
      ensures SameCall(CloseAll(Run(es, |es|).records, unfinishedError, error)[i], Starts(es, |es|)[i])
    {
      OneStored(es, i, unfinishedError, error);
    }
    forall i | 0 <= i < |Run(es, |es|).records|
      ensures var r := CloseAll(Run(es, |es|).records, unfinishedError, error)[i];
              (forall k :: 0 <= k < |es| && BelongsTo(es, k, i) ==> StoredFinished(r, es[k])) &&
              ((forall k :: 0 <= k < |es| ==> !BelongsTo(es, k, i)) ==> StoredUnfinished(r, unfinishedError, error))
    {
      OneStored(es, i, unfinishedError, error);
    }
  }

  /** With distinct ids, in every interleaving, the stored record of a call is that of the first end with its own id. */
  lemma OwnEndIsStored(es: seq<Event>, p: nat, q: nat, unfinishedError: bool, error: string)
    requires DistinctStarts(es) && p < q < |es| && es[p].Start? && es[q].End?
    requires Strip(es[q].callId) == Strip(es[p].callId)
    requires forall k :: p < k < q && es[k].End? ==> Strip(es[k].callId) != Strip(es[p].callId)
    ensures var result, i := CloseAll(Run(es, |es|).records, unfinishedError, error), |Run(es, p).records|;
            i < |result| && SameCall(result[i], es[p]) && result[i].failed == es[q].failed &&
            result[i].finishedAt == Some(es[q].at)
  {
    EachCallGetsItsOwnEnd(es, p, q);
  }
}
