/** Which transcript trimming returns, decided by the messages and the token counters alone. */
module TrimChoices {
  import opened Options
  import opened Lists
  import opened Messages
  import opened ToolGroups
  import opened GroupPositions
  import opened ContextWindow

  /** The model's own counter keeps to the budget, or the approximate one when there is no count of its own. */
  predicate Fits(env: Env, ms: seq<Message>, budget: int) {
    match env.custom(ms)
    case Some(n) => n <= budget
    case None => env.approx(ms) <= budget
  }

  /** Every id called in the current turn is called and answered. */
  predicate Covers(ms: seq<Message>, turn: seq<Message>) {
    forall m, id :: m in turn && id in CallIds(m) ==>
      (exists a :: a in ms && id in CallIds(a)) && exists t :: t in ms && t.Tool? && ResultId(t) == id
  }

  /** The latest human message, with the first system message if the two fit. */
  predicate IsMinimal(r: seq<Message>, ms: seq<Message>, h: nat, budget: int, env: Env)
    requires h < |ms|
  {
    r == if ms[0].System? && Fits(env, [ms[0], ms[h]], budget) then [ms[0], ms[h]] else [ms[h]]
  }

  lemma FitsIs(env: Env, ms: seq<Message>, budget: int)
    requires budget > 0
    ensures Fits(env, ms, budget) <==> Estimate(env, ms) <= budget
  {
  }

  lemma CoversIs(ms: seq<Message>, turn: seq<Message>)
    ensures Covers(ms, turn) <==> AiIds(turn) <= AiIds(ms) && AiIds(turn) <= ToolIds(ms)
  {
    if Covers(ms, turn) {
      forall id | id in AiIds(turn)
        ensures id in AiIds(ms) && id in ToolIds(ms)
      {
        var m :| m in turn && id in CallIds(m);
        NonBlankIds(if m.AI? then m.calls else []);
      }
    }
    if AiIds(turn) <= AiIds(ms) && AiIds(turn) <= ToolIds(ms) {
      forall m, id | m in turn && id in CallIds(m)
        ensures (exists a :: a in ms && id in CallIds(a)) && exists t :: t in ms && t.Tool? && ResultId(t) == id
      {
        assert id in AiIds(turn);
      }
    }
  }

  lemma MinimalIs(ms: seq<Message>, budget: int, env: Env)
    requires budget > 0 && LatestHumanIndex(ms) >= 0
    ensures IsMinimal(Minimal(ms, budget, env), ms, LatestHumanIndex(ms), budget, env)
  {
    var h := LatestHumanIndex(ms);
    if ms[0].System? {
      assert FirstSystem(ms) + [ms[h]] == [ms[0], ms[h]];
      FitsIs(env, [ms[0], ms[h]], budget);
    }
  }

  /** A current turn calls something. */
  lemma {:induction false} GroupsCall(ms: seq<Message>)
    requires Flat(CompleteGroups(ms)) != []
    ensures AiIds(Flat(CompleteGroups(ms))) != {}
    decreases |ms|
  {
    if CallIds(ms[0]) == [] {
      GroupsCall(ms[1..]);
    } else {
      FlatStep(ms);
      var later := Flat(CompleteGroups(AfterResults(ms)));
      if Complete(ms) {
        var m := Flat(CompleteGroups(ms))[0];
        assert m == ms[0] && m in Flat(CompleteGroups(ms)) && CallIds(m)[0] in CallIds(m);
        assert CallIds(m)[0] in AiIds(Flat(CompleteGroups(ms)));
      } else {
        NilSeq(later);
        GroupsCall(AfterResults(ms));
      }
    }
  }

  /** The first of the three forms of the exchange that fits, or the minimal messages when none does. */
  predicate IsFirstFitting(r: seq<Message>, base: seq<Message>, ms: seq<Message>, h: nat, budget: int, env: Env)
    requires h < |ms|
  {
    var c := Compacted(base, env);
    if Fits(env, base, budget) then r == base
    else if Fits(env, c, budget) then r == c
    else if c != [] && c[0].System? && Fits(env, c[1..], budget) then r == c[1..]
    else IsMinimal(r, ms, h, budget, env)
  }

  lemma FittingHead(cs: seq<seq<Message>>, budget: int, env: Env)
    requires budget > 0 && cs != [] && Dropped(cs[0]) == cs[0]
    ensures FirstFitting(cs, budget, env) ==
            if Fits(env, cs[0], budget) then Some(cs[0]) else FirstFitting(cs[1..], budget, env)
  {
    FitsIs(env, cs[0], budget);
  }

  lemma FitIs(ms: seq<Message>, budget: int, env: Env)
    requires budget > 0 && DistinctUids(ms) && LatestHumanIndex(ms) >= 0
    ensures IsFirstFitting(Fit(Base(ms), ms, budget, env), Base(ms), ms, LatestHumanIndex(ms), budget, env)
  {
    var base := Base(ms);
    var c, cs := Compacted(base, env), Candidates(base, env);
    CandidateUntouched(ms, env, 0);
    CandidateUntouched(ms, env, 1);
    MinimalIs(ms, budget, env);
    FittingHead(cs, budget, env);
    assert cs[1..][0] == c && cs[1..][1..] == cs[2..];
    FittingHead(cs[1..], budget, env);
    if c != [] && c[0].System? {
      CandidateUntouched(ms, env, 2);
      assert cs[2..][0] == c[1..] && cs[2..][1..] == [];
      FittingHead(cs[2..], budget, env);
    } else {
      assert cs[2..] == [];
    }
  }

  /** The messages after the latest human one. */
  function AfterHuman(ms: seq<Message>): seq<Message>
    requires LatestHumanIndex(ms) >= 0
  {
    ms[LatestHumanIndex(ms) + 1..]
  }

  lemma ExchangeIs(ms: seq<Message>)
    requires LatestHumanIndex(ms) >= 0
    ensures CurrentExchange(ms) == Flat(CompleteGroups(AfterHuman(ms)))
  {
  }

  lemma TailIsDistinct(ms: seq<Message>, n: nat)
    requires DistinctUids(ms) && n <= |ms|
    ensures DistinctUids(ms[n..])
  {
  }

  /** The tool calls and results after the latest human message, incomplete ones left out. */
  lemma TurnIs(ms: seq<Message>)
    requires DistinctUids(ms) && LatestHumanIndex(ms) >= 0
    ensures CurrentExchange(ms) == Exchanges(Dropped(AfterHuman(ms)))
  {
    ExchangeIs(ms);
    TailIsDistinct(ms, LatestHumanIndex(ms) + 1);
    GroupsKept(AfterHuman(ms));
  }

  /** What trimming returns when there is a latest human message at h and a turn after it. */
  predicate TurnOutcome(r: seq<Message>, ms: seq<Message>, h: nat, turn: seq<Message>, kept: seq<Message>,
                        budget: int, env: Env)
    requires h < |ms|
  {
    var base := (if ms[0].System? then [ms[0]] else []) + [ms[h]] + turn;
    if turn != [] && !Covers(kept, turn) then IsFirstFitting(r, base, ms, h, budget, env)
    else if HasHuman(kept) then r == kept
    else IsMinimal(r, ms, h, budget, env)
  }

  /** What trimming returns, case by case. */
  predicate Outcome(r: seq<Message>, ms: seq<Message>, budget: int, env: Env, lib: Option<seq<Message>>) {
    var h := LatestHumanIndex(ms);
    if budget <= 0 || lib == None then r == ms
    else if h < 0 then r == Dropped(lib.value)
    else TurnOutcome(r, ms, h, Exchanges(Dropped(AfterHuman(ms))), Dropped(lib.value), budget, env)
  }

  lemma NoTurnToFit(ms: seq<Message>, budget: int, env: Env, l: seq<Message>)
    requires budget > 0 && LatestHumanIndex(ms) >= 0
    requires CurrentExchange(ms) == [] || Covers(Dropped(l), CurrentExchange(ms))
    ensures Trimmed(ms, budget, env, Some(l)) == if HasHuman(Dropped(l)) then Dropped(l) else Minimal(ms, budget, env)
  {
    HumanIndex(ms);
    CoversIs(Dropped(l), CurrentExchange(ms));
    if CurrentExchange(ms) != [] {
      GroupsCall(ms[LatestHumanIndex(ms) + 1..]);
    }
  }

  lemma TurnToFit(ms: seq<Message>, budget: int, env: Env, l: seq<Message>)
    requires budget > 0 && DistinctUids(ms) && LatestHumanIndex(ms) >= 0
    requires CurrentExchange(ms) != [] && !Covers(Dropped(l), CurrentExchange(ms))
    ensures Trimmed(ms, budget, env, Some(l)) == Fit(Base(ms), ms, budget, env)
  {
    HumanIndex(ms);
    CoversIs(Dropped(l), CurrentExchange(ms));
    FitOutcomes(ms, budget, env);
    FitFacts(Fit(Base(ms), ms, budget, env), ms, budget, env);
  }

  lemma TurnDecides(ms: seq<Message>, budget: int, env: Env, l: seq<Message>)
    requires budget > 0 && DistinctUids(ms) && LatestHumanIndex(ms) >= 0
    ensures TurnOutcome(Trimmed(ms, budget, env, Some(l)), ms, LatestHumanIndex(ms), CurrentExchange(ms), Dropped(l),
                        budget, env)
  {
    if CurrentExchange(ms) != [] && !Covers(Dropped(l), CurrentExchange(ms)) {
      TurnToFit(ms, budget, env, l);
      FitIs(ms, budget, env);
    } else {
      NoTurnToFit(ms, budget, env, l);
      MinimalIs(ms, budget, env);
    }
  }

  /** Trimming for every transcript of distinct messages, budget, counter and library result. The filtered library
      result is returned when there is no current turn or it still calls and answers all of the turn; otherwise the
      turn in full, compacted, or compacted without the system message, whichever fits first. The minimal messages come
      only when none of these fits, or when the library lost every human message and needs no turn restored. */
  lemma TrimChooses(ms: seq<Message>, budget: int, env: Env, lib: Option<seq<Message>>)
    requires DistinctUids(ms)
    ensures Outcome(Trimmed(ms, budget, env, lib), ms, budget, env, lib)
  {
    if budget > 0 && lib.Some? {
      HumanIndex(ms);
      if LatestHumanIndex(ms) >= 0 {
        TurnIs(ms);
        TurnDecides(ms, budget, env, lib.value);
      }
    }
  }
}
