/** Which results a masking pass replaces, and by what, written out on messages and memory. */
module MaskingExactly {
  import opened Messages
  import opened ObservationMasking

  predicate IsTable(h: Handle) {
    h.kind == "table"
  }

  /** Nothing that must stay visible: no error, no table of at most five rows. */
  predicate Hidable(h: Handle) {
    h.kind != "error" && !(IsTable(h) && h.rows.Some? && h.rows.value <= 5)
  }

  /** The call is at least three steps old. */
  predicate Aged(c: Context, id: string) {
    id in c.steps && c.steps[id] + 3 <= c.current
  }

  predicate BearsTable(c: Context, id: string) {
    id in c.handles && exists k :: 0 <= k < |c.handles[id]| && IsTable(c.handles[id][k])
  }

  /** A table-bearing call, old enough itself, is more recent. */
  predicate Outdone(c: Context, id: string)
    requires id in c.steps
  {
    exists other :: other in c.handles && BearsTable(c, other) && Aged(c, other) && c.steps[other] > c.steps[id]
  }

  /** A result the pass may replace. */
  predicate Due(m: Message, c: Context, masked: set<string>) {
    m.Tool? && m.name != "planner_tool" && m.name != "get_tool_instructions" && m.callId !in masked &&
    m.callId in c.handles && c.handles[m.callId] != [] && Aged(c, m.callId) &&
    (forall k :: 0 <= k < |c.handles[m.callId]| ==> Hidable(c.handles[m.callId][k])) &&
    (BearsTable(c, m.callId) ==> Outdone(c, m.callId))
  }

  /** No message before the i-th that the pass may replace has its call id. */
  predicate FirstDue(ms: seq<Message>, c: Context, masked: set<string>, i: nat)
    requires i < |ms| && ms[i].Tool?
  {
    forall j :: 0 <= j < i && Due(ms[j], c, masked) ==> ms[j].callId != ms[i].callId
  }

  predicate Replaced(ms: seq<Message>, c: Context, masked: set<string>, i: nat)
    requires i < |ms|
  {
    Due(ms[i], c, masked) && FirstDue(ms, c, masked, i)
  }

  lemma LatestIs(c: Context, id: string)
    requires Aged(c, id) && BearsTable(c, id)
    ensures LatestOldTable(c, id) <==> !Outdone(c, id)
  {
    forall other | other in c.handles
      ensures OldTable(c, other) <==> BearsTable(c, other) && Aged(c, other)
    {
      TableIs(c, other);
    }
  }

  lemma TableIs(c: Context, id: string)
    requires id in c.handles
    ensures HasKind(c.handles[id], "table") <==> BearsTable(c, id)
    ensures HasSmallTable(c.handles[id]) || HasKind(c.handles[id], "error") <==>
            !(forall k :: 0 <= k < |c.handles[id]| ==> Hidable(c.handles[id][k]))
  {
    var hs := c.handles[id];
    if k :| 0 <= k < |hs| && IsTable(hs[k]) {
      assert hs[k].kind == "table";
    }
    if k :| 0 <= k < |hs| && !Hidable(hs[k]) {
      assert hs[k].kind == "error" || (hs[k].kind == "table" && hs[k].rows.Some? && hs[k].rows.value <= 5);
    }
    if k :| 0 <= k < |hs| && hs[k].kind == "table" {
      assert IsTable(hs[k]);
    }
  }

  lemma DueIs(m: Message, c: Context, masked: set<string>)
    ensures Due(m, c, masked) <==> Maskable(m, c, masked)
  {
    if m.Tool? && m.callId in c.handles {
      TableIs(c, m.callId);
      if Aged(c, m.callId) && BearsTable(c, m.callId) {
        LatestIs(c, m.callId);
      }
    }
  }

  lemma DueWith(m: Message, c: Context, masked: set<string>, id: string)
    ensures Due(m, c, masked + {id}) <==> Due(m, c, masked) && m.callId != id
  {
  }

  lemma ReplacedLater(ms: seq<Message>, c: Context, masked: set<string>, i: nat)
    requires 0 < i < |ms|
    ensures var next := if Due(ms[0], c, masked) then masked + {ms[0].callId} else masked;
            Replaced(ms, c, masked, i) <==> Replaced(ms[1..], c, next, i - 1)
  {
    var rest := ms[1..];
    var next := if Due(ms[0], c, masked) then masked + {ms[0].callId} else masked;
    forall j | 0 <= j < |rest|
      ensures Due(rest[j], c, next) <==>
              Due(ms[j + 1], c, masked) && !(Due(ms[0], c, masked) && ms[j + 1].callId == ms[0].callId)
    {
      if Due(ms[0], c, masked) {
        DueWith(rest[j], c, masked, ms[0].callId);
      }
    }
    if Replaced(rest, c, next, i - 1) {
      forall j | 0 <= j < i && Due(ms[j], c, masked)
        ensures ms[j].callId != ms[i].callId
      {
        if j > 0 {
          assert rest[j - 1] == ms[j];
        }
      }
    }
  }

  /** A pass replaces exactly the first due result of each call id, by the references of its artifacts under the same
      call id, and notes exactly the ids of due results. */
  lemma {:induction false} PassExactly(ms: seq<Message>, c: Context, masked: set<string>, i: nat)
    requires i < |ms|
    ensures var r := MaskPass(ms, c, masked);
            |r.messages| == |ms| &&
            r.messages[i] == if Replaced(ms, c, masked, i)
                             then Tool(ms[i].uid, ms[i].callId, "", Refs(c.handles[ms[i].callId])) else ms[i]
    decreases |ms|
  {
    DueIs(ms[0], c, masked);
    PassKeepsShape(ms, c, masked);
    if i > 0 {
      ReplacedLater(ms, c, masked, i);
      PassExactly(ms[1..], c, if Maskable(ms[0], c, masked) then masked + {ms[0].callId} else masked, i - 1);
    }
  }

  lemma {:induction false} PassNotes(ms: seq<Message>, c: Context, masked: set<string>, id: string)
    ensures id in MaskPass(ms, c, masked).masked <==>
            id in masked || exists i :: 0 <= i < |ms| && Due(ms[i], c, masked) && ms[i].callId == id
    decreases |ms|
  {
    if ms != [] {
      DueIs(ms[0], c, masked);
      var next := if Maskable(ms[0], c, masked) then masked + {ms[0].callId} else masked;
      PassNotes(ms[1..], c, next, id);
      if id !in next {
        forall i | 0 <= i < |ms| - 1
          ensures Due(ms[1..][i], c, next) && ms[1..][i].callId == id <==>
                  Due(ms[i + 1], c, masked) && ms[i + 1].callId == id
        {
          if Due(ms[0], c, masked) {
            DueWith(ms[i + 1], c, masked, ms[0].callId);
          }
        }
        if i :| 0 <= i < |ms| && Due(ms[i], c, masked) && ms[i].callId == id {
          assert i > 0 && ms[1..][i - 1] == ms[i];
        }
      }
    }
  }

  // ----- the text of the reference -----

  lemma RefOfOne(h: Handle)
    ensures Refs([h]) == h.ref
  {
  }

  /** The references stand one per line, in order. */
  lemma {:induction false} RefsAppend(a: seq<Handle>, b: seq<Handle>)
    requires a != [] && b != []
    ensures Refs(a + b) == Refs(a) + "\n" + Refs(b)
    decreases |a|
  {
    assert (a + b)[1..] == a[1..] + b;
    if |a| == 1 {
      assert a[1..] + b == b;
    } else {
      RefsAppend(a[1..], b);
      assert a[0].ref + "\n" + (Refs(a[1..]) + "\n" + Refs(b)) == a[0].ref + "\n" + Refs(a[1..]) + "\n" + Refs(b);
    }
  }
}
