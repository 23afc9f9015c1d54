/** When two tool results count as the same, and when that ends the loop, told from the outputs and calls alone. */
module RepeatedCalls {
  import opened Options
  import opened Text
  import opened Messages
  import opened Counting
  import opened ToolLoop
  import opened ToolLoopCounts

  // ----- the call an output answers -----

  /** The last call with the id. */
  predicate LastCall(calls: seq<Call>, id: string, k: int) {
    0 <= k < |calls| && Strip(calls[k].id) == id && forall j :: k < j < |calls| ==> Strip(calls[j].id) != id
  }

  predicate NoCall(calls: seq<Call>, id: string) {
    forall k :: 0 <= k < |calls| ==> Strip(calls[k].id) != id
  }

  predicate Claimed(o: Output, calls: seq<Call>) {
    !NoCall(calls, Strip(o.callId))
  }

  /** The arguments sent in the last call with the id, none for an unknown id. */
  ghost predicate SentUnder(calls: seq<Call>, id: string, args: string) {
    if NoCall(calls, id) then args == "" else exists k :: LastCall(calls, id, k) && calls[k].args == args
  }

  ghost predicate SentWith(o: Output, calls: seq<Call>, args: string) {
    SentUnder(calls, Strip(o.callId), args)
  }

  lemma {:induction false} FoundIsLast(calls: seq<Call>, id: string) returns (k: int)
    ensures if k < 0 then NoCall(calls, id) && FindCall(calls, id) == None
            else LastCall(calls, id, k) && FindCall(calls, id) == Some(calls[k])
  {
    if calls == [] {
      k := -1;
    } else {
      var n := |calls| - 1;
      if Strip(calls[n].id) == id {
        k := n;
      } else {
        k := FoundIsLast(calls[..n], id);
        assert forall j :: 0 <= j < n ==> calls[..n][j] == calls[j];
      }
    }
  }

  lemma SentIs(calls: seq<Call>, id: string, args: string)
    ensures var c := FindCall(calls, id);
            (c == None <==> NoCall(calls, id)) &&
            (SentUnder(calls, id, args) <==> args == if c.Some? then c.value.args else "")
  {
    var k := FoundIsLast(calls, id);
    if k >= 0 {
      assert !NoCall(calls, id);
      forall j | LastCall(calls, id, j)
        ensures j == k
      {
      }
    }
  }

  // ----- collapsed text -----

  /** The longest stretches without white space, read character by character. */
  function Words(s: string): (ws: seq<string>)
    ensures s != "" && !IsSpace(s[0]) ==> ws != []
  {
    if s == "" then []
    else
      var rest := Words(s[1..]);
      if IsSpace(s[0]) then rest
      else if |s| > 1 && !IsSpace(s[1]) then [[s[0]] + rest[0]] + rest[1..]
      else [[s[0]]] + rest
  }

  function Spaced(ws: seq<string>): string {
    if ws == [] then "" else if |ws| == 1 then ws[0] else ws[0] + " " + Spaced(ws[1..])
  }

  lemma {:induction false} WordsOfStripped(s: string)
    ensures Words(StripLeft(s)) == Words(s)
  {
    if s != "" && IsSpace(s[0]) {
      WordsOfStripped(s[1..]);
    }
  }

  lemma {:induction false} FirstWord(s: string)
    requires s != "" && !IsSpace(s[0])
    ensures Word(s) <= s && Words(s) == [Word(s)] + Words(s[|Word(s)|..])
  {
    if |s| > 1 && !IsSpace(s[1]) {
      FirstWord(s[1..]);
      var w := Word(s[1..]);
      assert Word(s) == [s[0]] + w && s[|Word(s)|..] == s[1..][|w|..];
    } else {
      assert Word(s) == [s[0]];
    }
  }

  lemma {:induction false} NoEmptyWord(s: string)
    ensures forall k :: 0 <= k < |Words(s)| ==> Words(s)[k] != ""
  {
    if s != "" {
      NoEmptyWord(s[1..]);
    }
  }

  lemma SpacedIsEmpty(ws: seq<string>)
    requires forall k :: 0 <= k < |ws| ==> ws[k] != ""
    ensures Spaced(ws) == "" <==> ws == []
  {
  }

  /** Collapsing puts the words in a row with one blank between them. */
  lemma {:induction false} CollapseExactly(s: string)
    ensures Collapse(s) == Spaced(Words(s))
    decreases |s|
  {
    var t := StripLeft(s);
    StripLeftShorter(s);
    WordsOfStripped(s);
    if t != "" {
      WordFits(t);
      FirstWord(t);
      var rest := t[|Word(t)|..];
      CollapseExactly(rest);
      NoEmptyWord(rest);
      SpacedIsEmpty(Words(rest));
      assert Words(s)[1..] == Words(rest);
    }
  }

  // ----- when two results count as the same -----

  function ErrorType(f: Failure): string {
    LowerAll(Strip(if f.errorType == "" then "ToolError" else f.errorType))
  }

  function MissingSymbol(f: Failure): string {
    LowerAll(Strip(f.missing))
  }

  function ErrorText(f: Failure): string {
    LowerAll(Collapse(if f.error == "" then f.message else f.error))
  }

  /** Same tool, same arguments, same error type and missing symbol; without a missing symbol also the same text. */
  predicate SameFailing(o: Output, a: string, p: Output, b: string)
    requires o.failure.Some? && p.failure.Some?
  {
    var f, g := o.failure.value, p.failure.value;
    Strip(o.name) == Strip(p.name) && a == b && ErrorType(f) == ErrorType(g) && MissingSymbol(f) == MissingSymbol(g) &&
    (MissingSymbol(f) == "" ==> ErrorText(f) == ErrorText(g))
  }

  predicate SameSucceeding(o: Output, a: string, p: Output, b: string) {
    Strip(o.name) == Strip(p.name) && a == b && Collapse(o.text) == Collapse(p.text)
  }

  /** Two failures count as one exactly when tool, arguments and normalised error agree. */
  lemma SameFailureExactly(o: Output, cs: seq<Call>, a: string, p: Output, ds: seq<Call>, b: string)
    requires o.failure.Some? && p.failure.Some? && SentWith(o, cs, a) && SentWith(p, ds, b)
    ensures Observe(o, cs) == Observe(p, ds) <==> SameFailing(o, a, p, b)
  {
    SentIs(cs, Strip(o.callId), a);
    SentIs(ds, Strip(p.callId), b);
  }

  /** Two successes that answer known calls count as one exactly when tool, arguments and collapsed text agree. */
  lemma SameSuccessExactly(o: Output, cs: seq<Call>, a: string, p: Output, ds: seq<Call>, b: string)
    requires o.failure == None == p.failure && Claimed(o, cs) && Claimed(p, ds)
    requires SentWith(o, cs, a) && SentWith(p, ds, b)
    ensures Observe(o, cs) == Observe(p, ds) <==> SameSucceeding(o, a, p, b)
  {
    SentIs(cs, Strip(o.callId), a);
    SentIs(ds, Strip(p.callId), b);
  }

  /** A processed output with the calls of its cycle. */
  datatype Sent = Sent(output: Output, calls: seq<Call>)

  /** The output is counted: a failure, or a success answering a known call. */
  predicate IsCounted(x: Sent) {
    x.output.failure.Some? || Claimed(x.output, x.calls)
  }

  /** The two results are the same call with the same result. */
  ghost predicate Alike(x: Sent, y: Sent) {
    IsCounted(x) && IsCounted(y) && (x.output.failure.Some? <==> y.output.failure.Some?) &&
    forall a, b :: SentWith(x.output, x.calls, a) && SentWith(y.output, y.calls, b) ==>
      if x.output.failure.Some? then y.output.failure.Some? && SameFailing(x.output, a, y.output, b)
      else SameSucceeding(x.output, a, y.output, b)
  }

  function Noted(x: Sent): Observation {
    Observe(x.output, x.calls)
  }

  lemma CountedIs(x: Sent)
    ensures Noted(x) != Unclaimed <==> IsCounted(x)
    ensures Noted(x).Failed? <==> x.output.failure.Some?
  {
    SentIs(x.calls, Strip(x.output.callId), "");
  }

  lemma AlikeExactly(x: Sent, y: Sent)
    ensures Alike(x, y) <==> Noted(x) == Noted(y) != Unclaimed
  {
    CountedIs(x);
    CountedIs(y);
    if IsCounted(x) && IsCounted(y) && (x.output.failure.Some? <==> y.output.failure.Some?) {
      var a, b := ArgsOf(x), ArgsOf(y);
      ArgsAre(x);
      ArgsAre(y);
      SameWhen(x, a, y, b);
    }
  }

  function ArgsOf(x: Sent): string {
    var c := FindCall(x.calls, Strip(x.output.callId));
    if c.Some? then c.value.args else ""
  }

  lemma ArgsAre(x: Sent)
    ensures forall a :: SentWith(x.output, x.calls, a) <==> a == ArgsOf(x)
  {
    forall a
      ensures SentWith(x.output, x.calls, a) <==> a == ArgsOf(x)
    {
      SentIs(x.calls, Strip(x.output.callId), a);
    }
  }

  lemma SameWhen(x: Sent, a: string, y: Sent, b: string)
    requires IsCounted(x) && IsCounted(y) && (x.output.failure.Some? <==> y.output.failure.Some?)
    requires SentWith(x.output, x.calls, a) && SentWith(y.output, y.calls, b)
    ensures Noted(x) == Noted(y) <==>
            if x.output.failure.Some? then y.output.failure.Some? && SameFailing(x.output, a, y.output, b)
            else SameSucceeding(x.output, a, y.output, b)
  {
    if x.output.failure.Some? {
      SameFailureExactly(x.output, x.calls, a, y.output, y.calls, b);
    } else {
      SameSuccessExactly(x.output, x.calls, a, y.output, y.calls, b);
    }
  }

  // ----- three alike, in the history -----

  function NotedAll(xs: seq<Sent>): seq<Observation> {
    seq(|xs|, i requires 0 <= i < |xs| => Noted(xs[i]))
  }

  ghost predicate AlikeAt(xs: seq<Sent>, i: int, j: int, k: int) {
    0 <= i < j < k < |xs| && Alike(xs[i], xs[k]) && Alike(xs[j], xs[k])
  }

  /** Some call came three times with the same result. */
  ghost predicate ThreeAlike(xs: seq<Sent>) {
    exists i, j, k :: AlikeAt(xs, i, j, k)
  }

  /** The n-th output, counted from one, completes the first three alike. */
  ghost predicate FirstThree(xs: seq<Sent>, n: nat) {
    0 < n <= |xs| && ThreeAlike(xs[..n]) && !ThreeAlike(xs[..n - 1])
  }

  predicate ThreeAt(log: seq<Observation>, i: int, j: int, k: int) {
    0 <= i < j < k < |log| && log[i] == log[k] && log[j] == log[k] && log[k] != Unclaimed
  }

  ghost predicate ThreeEqual(log: seq<Observation>) {
    exists i, j, k :: ThreeAt(log, i, j, k)
  }

  lemma ThreeIs(xs: seq<Sent>)
    ensures ThreeAlike(xs) <==> ThreeEqual(NotedAll(xs))
  {
    var log := NotedAll(xs);
    if ThreeAlike(xs) {
      var i, j, k :| AlikeAt(xs, i, j, k);
      AlikeExactly(xs[i], xs[k]);
      AlikeExactly(xs[j], xs[k]);
      assert ThreeAt(log, i, j, k);
    }
    if ThreeEqual(log) {
      var i, j, k :| ThreeAt(log, i, j, k);
      AlikeExactly(xs[i], xs[k]);
      AlikeExactly(xs[j], xs[k]);
      assert AlikeAt(xs, i, j, k);
    }
  }

  /** How often the counted observation stands in the history. */
  function Times(log: seq<Observation>, ob: Observation): nat {
    match ob
    case Failed(k) => TimesFailed(log, k)
    case Succeeded(k) => TimesSucceeded(log, k)
    case Unclaimed => 0
  }

  lemma {:induction false} TimesOne(log: seq<Observation>, ob: Observation)
    requires ob != Unclaimed
    ensures Times(log, ob) >= 1 <==> ob in log
  {
    if log != [] {
      TimesOne(Drop(log), ob);
      assert log == Drop(log) + [log[|log| - 1]];
    }
  }

  predicate TwiceAt(log: seq<Observation>, ob: Observation, i: int, j: int) {
    0 <= i < j < |log| && log[i] == ob && log[j] == ob
  }

  ghost predicate TwiceIn(log: seq<Observation>, ob: Observation) {
    exists i, j :: TwiceAt(log, ob, i, j)
  }

  lemma TwiceSnoc(log: seq<Observation>, last: Observation, ob: Observation)
    ensures TwiceIn(log + [last], ob) <==> TwiceIn(log, ob) || (last == ob && ob in log)
  {
    var all := log + [last];
    if i, j :| TwiceAt(all, ob, i, j) {
      assert log[i] == ob;
      assert j < |log| ==> TwiceAt(log, ob, i, j);
    }
    if i, j :| TwiceAt(log, ob, i, j) {
      assert TwiceAt(all, ob, i, j);
    }
    if last == ob && ob in log {
      var i :| 0 <= i < |log| && log[i] == ob;
      assert TwiceAt(all, ob, i, |log|);
    }
  }

  lemma {:induction false} TimesTwo(log: seq<Observation>, ob: Observation)
    requires ob != Unclaimed
    ensures Times(log, ob) >= 2 <==> TwiceIn(log, ob)
  {
    if log != [] {
      var last := log[|log| - 1];
      TimesTwo(Drop(log), ob);
      TimesOne(Drop(log), ob);
      TwiceSnoc(Drop(log), last, ob);
      assert log == Drop(log) + [last];
    }
  }

  lemma ThreeSnoc(log: seq<Observation>, ob: Observation)
    ensures ThreeEqual(log + [ob]) <==> ThreeEqual(log) || (ob != Unclaimed && TwiceIn(log, ob))
  {
    var all := log + [ob];
    if i, j, k :| ThreeAt(all, i, j, k) {
      if k < |log| {
        assert ThreeAt(log, i, j, k);
      } else {
        assert TwiceAt(log, ob, i, j);
      }
    }
    if i, j, k :| ThreeAt(log, i, j, k) {
      assert ThreeAt(all, i, j, k);
    }
    if i, j :| ob != Unclaimed && TwiceAt(log, ob, i, j) {
      assert ThreeAt(all, i, j, |log|);
    }
  }

  /** The counters stop on an observation exactly when it completes three. */
  lemma StopsOnThree(c: Counters, log: seq<Observation>, ob: Observation)
    requires MapsCount(c, log) && !ThreeEqual(log)
    ensures StopAfter(Count(c, ob), ob) != Running <==> ThreeEqual(log + [ob])
    ensures StopAfter(Count(c, ob), ob) != Running ==> (StopAfter(Count(c, ob), ob) == SameFailure <==> ob.Failed?)
  {
    ThreeSnoc(log, ob);
    if ob != Unclaimed {
      TimesTwo(log, ob);
      match ob
      case Failed(k) => assert Get(c.failures, k) == TimesFailed(log, k);
      case Succeeded(k) => assert Get(c.successes, k) == TimesSucceeded(log, k);
    }
  }

  // ----- the outputs of a run -----

  function SentAll(outputs: seq<Output>, calls: seq<Call>): seq<Sent> {
    seq(|outputs|, i requires 0 <= i < |outputs| => Sent(outputs[i], calls))
  }

  /** The state of the loop agrees with a history in which nothing came three times. */
  ghost predicate Follows(s: State, xs: seq<Sent>) {
    s.log == NotedAll(xs) && MapsCount(s.counters, s.log) && !ThreeAlike(xs)
  }

  /** Processing stopped at the n-th of these outputs, which completes the first three alike. */
  ghost predicate StopsAt(log: seq<Observation>, stop: Stop, xs: seq<Sent>, n: nat) {
    FirstThree(xs, n) && log == NotedAll(xs[..n]) && (stop == SameFailure <==> xs[n - 1].output.failure.Some?)
  }

  lemma TakeOneFollows(s: State, memory: bool, o: Output, calls: seq<Call>, xs: seq<Sent>)
    requires Follows(s, xs)
    ensures var t, ys := TakeOutput(s, memory, o, calls), xs + [Sent(o, calls)];
            var stop := StopAfter(t.counters, Observe(o, calls));
            if stop == Running then Follows(t, ys) else StopsAt(t.log, stop, ys, |ys|)
  {
    var x, ob := Sent(o, calls), Observe(o, calls);
    var ys := xs + [x];
    assert NotedAll(ys) == NotedAll(xs) + [ob] && ys[..|ys| - 1] == xs && ys[..|ys|] == ys;
    ThreeIs(xs);
    ThreeIs(ys);
    CountKeepsMaps(s.counters, s.log, ob);
    StopsOnThree(s.counters, s.log, ob);
    CountedIs(x);
  }
}
