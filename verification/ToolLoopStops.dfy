/** When the tool loop stops early, told from its inputs: the third occurrence of a failure or success key. */
module ToolLoopStops {
  import opened Messages
  import opened Counting
  import opened ToolLoop

  /** How often the counters have seen the observation; one that answers no known call is never counted. */
  function Seen(c: Counters, ob: Observation): nat {
    match ob
    case Failed(k) => Get(c.failures, k)
    case Succeeded(k) => Get(c.successes, k)
    case Unclaimed => 0
  }

  /** How many of the outputs count as the observation. */
  function Occurrences(outputs: seq<Output>, calls: seq<Call>, ob: Observation): nat {
    if outputs == [] then 0
    else (if ob != Unclaimed && Observe(outputs[0], calls) == ob then 1 else 0) + Occurrences(outputs[1..], calls, ob)
  }

  /** The k-th output is at least the third with its key. */
  predicate Third(c: Counters, outputs: seq<Output>, calls: seq<Call>, k: nat)
    requires k < |outputs|
  {
    var ob := Observe(outputs[k], calls);
    Seen(c, ob) + Occurrences(outputs[..k + 1], calls, ob) >= 3
  }

  /** Some output is a third. */
  predicate Repeats(c: Counters, outputs: seq<Output>, calls: seq<Call>) {
    exists k :: 0 <= k < |outputs| && Third(c, outputs, calls, k)
  }

  /** An output that is not the last one is a third. */
  predicate RepeatsEarly(c: Counters, outputs: seq<Output>, calls: seq<Call>) {
    exists k :: 0 <= k < |outputs| - 1 && Third(c, outputs, calls, k)
  }

  /** The counters after all the outputs. */
  function CountAll(c: Counters, outputs: seq<Output>, calls: seq<Call>): Counters
    decreases |outputs|
  {
    if outputs == [] then c else CountAll(Count(c, Observe(outputs[0], calls)), outputs[1..], calls)
  }

  lemma CountSees(c: Counters, ob: Observation, other: Observation)
    ensures Seen(Count(c, ob), other) == Seen(c, other) + if other != Unclaimed && ob == other then 1 else 0
  {
  }

  lemma FirstIsThird(c: Counters, outputs: seq<Output>, calls: seq<Call>)
    requires outputs != []
    ensures var ob := Observe(outputs[0], calls);
            Third(c, outputs, calls, 0) <==> StopAfter(Count(c, ob), ob) != Running
  {
    var ob := Observe(outputs[0], calls);
    var first := outputs[..1];
    assert first[0] == outputs[0] && first[1..] == [];
    assert Occurrences(first, calls, ob) == if ob != Unclaimed then 1 else 0;
    CountSees(c, ob, ob);
    if ob == Unclaimed {
      assert Seen(c, ob) == 0;
    }
  }

  lemma LaterIsThird(c: Counters, outputs: seq<Output>, calls: seq<Call>, k: nat)
    requires k + 1 < |outputs|
    ensures Third(c, outputs, calls, k + 1) <==> Third(Count(c, Observe(outputs[0], calls)), outputs[1..], calls, k)
  {
    var ob, first := Observe(outputs[k + 1], calls), Observe(outputs[0], calls);
    assert outputs[1..][k] == outputs[k + 1];
    var upTo := outputs[..k + 2];
    assert upTo[0] == outputs[0] && upTo[1..] == outputs[1..][..k + 1];
    CountSees(c, first, ob);
  }

  /** Processing the outputs stops exactly when one of them is a third, leaves outputs exactly when that is not the
      last one, and otherwise counts them all. */
  lemma {:induction false} StopsOnThird(s: State, memory: bool, outputs: seq<Output>, calls: seq<Call>)
    ensures var t := TakeOutputs(s, memory, outputs, calls);
            (t.stop != Running <==> Repeats(s.counters, outputs, calls)) &&
            (t.left > 0 <==> RepeatsEarly(s.counters, outputs, calls)) &&
            (t.stop == Running ==> t.state.counters == CountAll(s.counters, outputs, calls))
    decreases |outputs|
  {
    if outputs != [] {
      var ob, rest := Observe(outputs[0], calls), outputs[1..];
      var next := TakeOutput(s, memory, outputs[0], calls);
      FirstIsThird(s.counters, outputs, calls);
      if StopAfter(next.counters, ob) == Running {
        StopsOnThird(next, memory, rest, calls);
        RepeatsLater(s.counters, outputs, calls);
      } else {
        assert Third(s.counters, outputs, calls, 0);
      }
    }
  }

  lemma RepeatsLater(c: Counters, outputs: seq<Output>, calls: seq<Call>)
    requires outputs != [] && !Third(c, outputs, calls, 0)
    ensures var d := Count(c, Observe(outputs[0], calls));
            (Repeats(c, outputs, calls) <==> Repeats(d, outputs[1..], calls)) &&
            (RepeatsEarly(c, outputs, calls) <==> RepeatsEarly(d, outputs[1..], calls))
  {
    var d, rest := Count(c, Observe(outputs[0], calls)), outputs[1..];
    forall k: nat | k < |rest|
      ensures Third(c, outputs, calls, k + 1) <==> Third(d, rest, calls, k)
    {
      LaterIsThird(c, outputs, calls, k);
    }
    if Repeats(c, outputs, calls) {
      var k :| 0 <= k < |outputs| && Third(c, outputs, calls, k);
      assert Third(d, rest, calls, k - 1);
    }
    if RepeatsEarly(c, outputs, calls) {
      var k :| 0 <= k < |outputs| - 1 && Third(c, outputs, calls, k);
      assert Third(d, rest, calls, k - 1);
    }
    if Repeats(d, rest, calls) {
      var k :| 0 <= k < |rest| && Third(d, rest, calls, k);
      assert Third(c, outputs, calls, k + 1);
    }
    if RepeatsEarly(d, rest, calls) {
      var k :| 0 <= k < |rest| - 1 && Third(d, rest, calls, k);
      assert Third(c, outputs, calls, k + 1);
    }
  }
}
