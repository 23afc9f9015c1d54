/** Grouping rows by a key and adding them up. */
module Grouping {
  import opened Lists

  /** Centre of financial responsibility, normalised article key, extra key, period. */
  datatype Cell = Cell(cfo: string, article: string, extra: string, period: string)

  datatype Item = Item(key: Cell, amount: real)

  function Only(b: bool, x: real): real {
    if b then x else 0.0
  }

  /** The sum over the rows whose key satisfies p. */
  function SumWhere(xs: seq<Item>, p: Cell -> bool): real {
    if xs == [] then 0.0 else Only(p(xs[0].key), xs[0].amount) + SumWhere(xs[1..], p)
  }

  /** The sum over one group. */
  function SumAt(xs: seq<Item>, k: Cell): real {
    if xs == [] then 0.0 else Only(xs[0].key == k, xs[0].amount) + SumAt(xs[1..], k)
  }

  /** The keys of the groups, each once, in any order. */
  ghost predicate Enumerates(order: seq<Cell>, xs: seq<Item>) {
    NoDuplicates(order) && (forall i :: 0 <= i < |xs| ==> xs[i].key in order) &&
    forall j :: 0 <= j < |order| ==> exists i :: 0 <= i < |xs| && xs[i].key == order[j]
  }

  /** One row for each group, in the given order. */
  function Group(xs: seq<Item>, order: seq<Cell>): seq<Item> {
    seq(|order|, i requires 0 <= i < |order| => Item(order[i], SumAt(xs, order[i])))
  }

  // ----- grouping keeps every sum over keys -----

  /** The sum over the groups in the order, taken key by key. */
  function OrderSum(xs: seq<Item>, order: seq<Cell>, p: Cell -> bool): real {
    if order == [] then 0.0 else Only(p(order[0]), SumAt(xs, order[0])) + OrderSum(xs, order[1..], p)
  }

  lemma {:induction false} GroupIsOrderSum(xs: seq<Item>, order: seq<Cell>, p: Cell -> bool)
    ensures SumWhere(Group(xs, order), p) == OrderSum(xs, order, p)
  {
    if order != [] {
      GroupIsOrderSum(xs, order[1..], p);
      assert Group(xs, order)[1..] == Group(xs, order[1..]);
    }
  }

  lemma {:induction false} OrderSumOfNothing(order: seq<Cell>, p: Cell -> bool)
    ensures OrderSum([], order, p) == 0.0
  {
    if order != [] {
      OrderSumOfNothing(order[1..], p);
    }
  }

  lemma {:induction false} OrderSumAbsent(xs: seq<Item>, order: seq<Cell>, p: Cell -> bool)
    requires xs != [] && xs[0].key !in order
    ensures OrderSum(xs, order, p) == OrderSum(xs[1..], order, p)
  {
    if order != [] {
      OrderSumAbsent(xs, order[1..], p);
    }
  }

  /** A row counts in exactly one group. */
  lemma {:induction false} OrderSumStep(xs: seq<Item>, order: seq<Cell>, p: Cell -> bool)
    requires xs != [] && NoDuplicates(order) && xs[0].key in order
    ensures OrderSum(xs, order, p) == Only(p(xs[0].key), xs[0].amount) + OrderSum(xs[1..], order, p)
  {
    var rest := order[1..];
    assert order == [order[0]] + rest;
    assert forall i :: 0 <= i < |rest| ==> rest[i] == order[i + 1];
    if xs[0].key == order[0] {
      OrderSumAbsent(xs, rest, p);
    } else {
      OrderSumStep(xs, rest, p);
    }
  }

  lemma {:induction false} OrderSumIsSum(xs: seq<Item>, order: seq<Cell>, p: Cell -> bool)
    requires NoDuplicates(order) && forall i :: 0 <= i < |xs| ==> xs[i].key in order
    ensures OrderSum(xs, order, p) == SumWhere(xs, p)
  {
    if xs == [] {
      OrderSumOfNothing(order, p);
    } else {
      OrderSumStep(xs, order, p);
      OrderSumIsSum(xs[1..], order, p);
    }
  }

  /** Grouping keeps the sum over every set of keys, in every order of the groups. */
  lemma GroupingConserves(xs: seq<Item>, order: seq<Cell>, p: Cell -> bool)
    requires Enumerates(order, xs)
    ensures SumWhere(Group(xs, order), p) == SumWhere(xs, p)
  {
    GroupIsOrderSum(xs, order, p);
    OrderSumIsSum(xs, order, p);
  }

  ghost predicate UniqueKeys(xs: seq<Item>) {
    forall i, j :: 0 <= i < j < |xs| ==> xs[i].key != xs[j].key
  }

  lemma GroupsAreUnique(xs: seq<Item>, order: seq<Cell>)
    requires NoDuplicates(order)
    ensures UniqueKeys(Group(xs, order))
  {
  }

  // ----- rewriting keys -----

  /** Rewriting keys row by row keeps the sum over every set of keys that the rewriting respects. */
  lemma {:induction false} RekeyConserves(xs: seq<Item>, ys: seq<Item>, p: Cell -> bool, q: Cell -> bool)
    requires |xs| == |ys|
    requires forall i :: 0 <= i < |xs| ==> ys[i].amount == xs[i].amount && q(ys[i].key) == p(xs[i].key)
    ensures SumWhere(ys, q) == SumWhere(xs, p)
  {
    if xs != [] {
      assert ys[0].amount == xs[0].amount && q(ys[0].key) == p(xs[0].key);
      RekeyConserves(xs[1..], ys[1..], p, q);
    }
  }

  // ----- the outer join -----

  datatype Joined = Joined(key: Cell, plan: real, fact: real)

  function Matches(fact: seq<Item>, k: Cell): seq<Item> {
    if fact == [] then [] else (if fact[0].key == k then [fact[0]] else []) + Matches(fact[1..], k)
  }

  function JoinRow(p: Item, ms: seq<Item>): seq<Joined> {
    if ms == [] then [Joined(p.key, p.amount, 0.0)]
    else seq(|ms|, i requires 0 <= i < |ms| => Joined(p.key, p.amount, ms[i].amount))
  }

  function LeftRows(plan: seq<Item>, fact: seq<Item>): seq<Joined> {
    if plan == [] then [] else JoinRow(plan[0], Matches(fact, plan[0].key)) + LeftRows(plan[1..], fact)
  }

  function RightRows(plan: seq<Item>, fact: seq<Item>): seq<Joined> {
    if fact == [] then []
    else (if Matches(plan, fact[0].key) == [] then [Joined(fact[0].key, 0.0, fact[0].amount)] else []) +
         RightRows(plan, fact[1..])
  }

  /** `plan.merge(fact, how="outer")` with missing amounts filled with zero. */
  function OuterJoin(plan: seq<Item>, fact: seq<Item>): seq<Joined> {
    LeftRows(plan, fact) + RightRows(plan, fact)
  }

  function FactSum(js: seq<Joined>, p: Cell -> bool): real {
    if js == [] then 0.0 else Only(p(js[0].key), js[0].fact) + FactSum(js[1..], p)
  }

  function PlanSum(js: seq<Joined>, p: Cell -> bool): real {
    if js == [] then 0.0 else Only(p(js[0].key), js[0].plan) + PlanSum(js[1..], p)
  }

  lemma {:induction false} SumsAppend(a: seq<Joined>, b: seq<Joined>, p: Cell -> bool)
    ensures FactSum(a + b, p) == FactSum(a, p) + FactSum(b, p)
    ensures PlanSum(a + b, p) == PlanSum(a, p) + PlanSum(b, p)
  {
    if a == [] {
      NilSeq(b);
    } else {
      SumsAppend(a[1..], b, p);
      assert (a + b)[1..] == a[1..] + b;
    }
  }

  lemma {:induction false} MatchesAt(xs: seq<Item>, k: Cell)
    ensures forall i :: 0 <= i < |Matches(xs, k)| ==> Matches(xs, k)[i].key == k
    ensures Matches(xs, k) == [] <==> forall i :: 0 <= i < |xs| ==> xs[i].key != k
  {
    if xs != [] {
      MatchesAt(xs[1..], k);
      assert xs == [xs[0]] + xs[1..];
    }
  }

  lemma {:induction false} MatchesSum(xs: seq<Item>, k: Cell, p: Cell -> bool)
    ensures SumWhere(Matches(xs, k), p) == Only(p(k), SumAt(xs, k))
  {
    if xs != [] {
      MatchesSum(xs[1..], k, p);
      var m := Matches(xs, k);
      if xs[0].key == k {
        assert m[1..] == Matches(xs[1..], k);
      } else {
        assert m == Matches(xs[1..], k);
      }
    }
  }

  /** The plan tally once for each of n rows. */
  function Times(n: nat, t: real): real {
    if n == 0 then 0.0 else t + Times(n - 1, t)
  }

  function AtLeastOne(n: nat): nat {
    if n == 0 then 1 else n
  }

  lemma {:induction false} JoinRowSums(r: Item, ms: seq<Item>, p: Cell -> bool)
    requires forall i :: 0 <= i < |ms| ==> ms[i].key == r.key
    ensures FactSum(JoinRow(r, ms), p) == SumWhere(ms, p)
    ensures PlanSum(JoinRow(r, ms), p) == Only(p(r.key), Times(AtLeastOne(|ms|), r.amount))
    decreases |ms|
  {
    var js := JoinRow(r, ms);
    if |ms| <= 1 {
      assert js[1..] == [];
      assert Times(1, r.amount) == r.amount + Times(0, r.amount);
      if |ms| == 1 {
        assert ms[1..] == [];
      }
    } else {
      JoinRowSums(r, ms[1..], p);
      assert js[1..] == JoinRow(r, ms[1..]);
    }
  }

  /** The sum over the fact rows whose key occurs in the plan. */
  function InPlan(plan: seq<Item>, fact: seq<Item>, p: Cell -> bool): real {
    if fact == [] then 0.0
    else Only(p(fact[0].key) && Matches(plan, fact[0].key) != [], fact[0].amount) + InPlan(plan, fact[1..], p)
  }

  lemma {:induction false} RightSums(plan: seq<Item>, fact: seq<Item>, p: Cell -> bool)
    ensures FactSum(RightRows(plan, fact), p) + InPlan(plan, fact, p) == SumWhere(fact, p)
    ensures PlanSum(RightRows(plan, fact), p) == 0.0
  {
    if fact != [] {
      RightSums(plan, fact[1..], p);
      var rs := RightRows(plan, fact);
      if Matches(plan, fact[0].key) == [] {
        assert rs[1..] == RightRows(plan, fact[1..]);
      } else {
        assert rs == RightRows(plan, fact[1..]);
      }
    }
  }

  lemma {:induction false} InPlanNone(fact: seq<Item>, p: Cell -> bool)
    ensures InPlan([], fact, p) == 0.0
  {
    if fact != [] {
      InPlanNone(fact[1..], p);
    }
  }

  /** A plan row with a new key brings in exactly the fact rows of that key. */
  lemma {:induction false} InPlanStep(plan: seq<Item>, fact: seq<Item>, p: Cell -> bool)
    requires plan != [] && Matches(plan[1..], plan[0].key) == []
    ensures InPlan(plan, fact, p) == Only(p(plan[0].key), SumAt(fact, plan[0].key)) + InPlan(plan[1..], fact, p)
  {
    if fact != [] {
      InPlanStep(plan, fact[1..], p);
    }
  }

  lemma {:induction false} LeftFactSums(plan: seq<Item>, fact: seq<Item>, p: Cell -> bool)
    requires UniqueKeys(plan)
    ensures FactSum(LeftRows(plan, fact), p) == InPlan(plan, fact, p)
  {
    if plan == [] {
      InPlanNone(fact, p);
    } else {
      var k, ms := plan[0].key, Matches(fact, plan[0].key);
      assert forall i :: 0 <= i < |plan[1..]| ==> plan[1..][i] == plan[i + 1];
      LeftFactSums(plan[1..], fact, p);
      MatchesAt(fact, k);
      MatchesAt(plan[1..], k);
      MatchesSum(fact, k, p);
      JoinRowSums(plan[0], ms, p);
      SumsAppend(JoinRow(plan[0], ms), LeftRows(plan[1..], fact), p);
      InPlanStep(plan, fact, p);
    }
  }

  /** With distinct plan keys the outer join keeps every fact sum, however many fact rows share a key. */
  lemma JoinKeepsFact(plan: seq<Item>, fact: seq<Item>, p: Cell -> bool)
    requires UniqueKeys(plan)
    ensures FactSum(OuterJoin(plan, fact), p) == SumWhere(fact, p)
  {
    LeftFactSums(plan, fact, p);
    RightSums(plan, fact, p);
    SumsAppend(LeftRows(plan, fact), RightRows(plan, fact), p);
  }

  /** Each plan row weighted by the number of fact rows it is joined with, but at least once. */
  function Weighted(plan: seq<Item>, fact: seq<Item>, p: Cell -> bool): real {
    if plan == [] then 0.0
    else
      var n := AtLeastOne(|Matches(fact, plan[0].key)|);
      Only(p(plan[0].key), Times(n, plan[0].amount)) + Weighted(plan[1..], fact, p)
  }

  /** What the outer join makes of the plan, for all inputs: a plan row counts once for each fact row it meets. */
  lemma {:induction false} JoinWeighsPlan(plan: seq<Item>, fact: seq<Item>, p: Cell -> bool)
    ensures PlanSum(OuterJoin(plan, fact), p) == Weighted(plan, fact, p)
  {
    LeftPlanSums(plan, fact, p);
    RightSums(plan, fact, p);
    SumsAppend(LeftRows(plan, fact), RightRows(plan, fact), p);
  }

  lemma {:induction false} LeftPlanSums(plan: seq<Item>, fact: seq<Item>, p: Cell -> bool)
    ensures PlanSum(LeftRows(plan, fact), p) == Weighted(plan, fact, p)
  {
    if plan != [] {
      var ms := Matches(fact, plan[0].key);
      LeftPlanSums(plan[1..], fact, p);
      MatchesAt(fact, plan[0].key);
      JoinRowSums(plan[0], ms, p);
      SumsAppend(JoinRow(plan[0], ms), LeftRows(plan[1..], fact), p);
    }
  }

  /** Whatever plan row meets two fact rows carries no amount. */
  predicate Harmless(plan: seq<Item>, fact: seq<Item>) {
    forall i :: 0 <= i < |plan| ==> |Matches(fact, plan[i].key)| <= 1 || plan[i].amount == 0.0
  }

  lemma {:induction false} UniqueMeetOnce(fact: seq<Item>, k: Cell)
    requires UniqueKeys(fact)
    ensures |Matches(fact, k)| <= 1
  {
    if fact != [] {
      assert forall i :: 0 <= i < |fact[1..]| ==> fact[1..][i] == fact[i + 1];
      UniqueMeetOnce(fact[1..], k);
      MatchesAt(fact[1..], fact[0].key);
    }
  }

  lemma {:induction false} TimesNothing(n: nat)
    ensures Times(n, 0.0) == 0.0
  {
    if n > 0 {
      TimesNothing(n - 1);
    }
  }

  lemma {:induction false} WeightedOnce(plan: seq<Item>, fact: seq<Item>, p: Cell -> bool)
    requires Harmless(plan, fact)
    ensures Weighted(plan, fact, p) == SumWhere(plan, p)
  {
    if plan != [] {
      var n := |Matches(fact, plan[0].key)|;
      assert n <= 1 || plan[0].amount == 0.0;
      assert forall i :: 0 <= i < |plan[1..]| ==> plan[1..][i] == plan[i + 1];
      WeightedOnce(plan[1..], fact, p);
      assert Times(1, plan[0].amount) == plan[0].amount + Times(0, plan[0].amount);
      TimesNothing(AtLeastOne(n));
    }
  }

  /** The plan sums survive the join when it is harmless. */
  lemma JoinKeepsPlan(plan: seq<Item>, fact: seq<Item>, p: Cell -> bool)
    requires Harmless(plan, fact)
    ensures PlanSum(OuterJoin(plan, fact), p) == SumWhere(plan, p)
  {
    JoinWeighsPlan(plan, fact, p);
    WeightedOnce(plan, fact, p);
  }

  lemma {:induction false} TimesAmount(n: nat, t: real)
    requires t != 0.0
    ensures t > 0.0 ==> Times(n, t) >= 0.0 && (n >= 1 ==> Times(n, t) >= t) && (n >= 2 ==> Times(n, t) > t)
    ensures t < 0.0 ==> Times(n, t) <= 0.0 && (n >= 1 ==> Times(n, t) <= t) && (n >= 2 ==> Times(n, t) < t)
  {
    if n > 0 {
      TimesAmount(n - 1, t);
    }
  }

  /** The set of keys that holds this key alone. */
  function Exactly(k: Cell): Cell -> bool {
    (c: Cell) => c == k
  }

  lemma {:induction false} AloneElsewhere(plan: seq<Item>, fact: seq<Item>, k: Cell)
    requires forall i :: 0 <= i < |plan| ==> plan[i].key != k
    ensures Weighted(plan, fact, Exactly(k)) == SumWhere(plan, Exactly(k)) == 0.0
  {
    if plan != [] {
      assert forall i :: 0 <= i < |plan[1..]| ==> plan[1..][i] == plan[i + 1];
      AloneElsewhere(plan[1..], fact, k);
    }
  }

  /** One plan key alone: its amount, and its amount once for each fact row met. */
  lemma {:induction false} AloneAt(plan: seq<Item>, fact: seq<Item>, i: nat)
    requires i < |plan| && UniqueKeys(plan)
    ensures var p := Exactly(plan[i].key);
            SumWhere(plan, p) == plan[i].amount &&
            Weighted(plan, fact, p) == Times(AtLeastOne(|Matches(fact, plan[i].key)|), plan[i].amount)
  {
    var rest := plan[1..];
    assert forall j :: 0 <= j < |rest| ==> rest[j] == plan[j + 1];
    if i == 0 {
      AloneElsewhere(rest, fact, plan[0].key);
    } else {
      AloneAt(rest, fact, i - 1);
    }
  }

  /** Whatever the signs of the amounts, the join keeps the plan sum of every set of keys exactly when no plan row
      that carries an amount meets two fact rows. */
  lemma {:induction false} JoinKeepsPlanExactly(plan: seq<Item>, fact: seq<Item>)
    requires UniqueKeys(plan)
    ensures (forall p :: PlanSum(OuterJoin(plan, fact), p) == SumWhere(plan, p)) <==> Harmless(plan, fact)
  {
    if Harmless(plan, fact) {
      forall p
        ensures PlanSum(OuterJoin(plan, fact), p) == SumWhere(plan, p)
      {
        JoinKeepsPlan(plan, fact, p);
      }
    } else {
      var i :| 0 <= i < |plan| && |Matches(fact, plan[i].key)| > 1 && plan[i].amount != 0.0;
      var p := Exactly(plan[i].key);
      JoinWeighsPlan(plan, fact, p);
      AloneAt(plan, fact, i);
      TimesAmount(|Matches(fact, plan[i].key)|, plan[i].amount);
      assert PlanSum(OuterJoin(plan, fact), p) != SumWhere(plan, p);
    }
  }

  lemma {:induction false} WeightedExceeds(plan: seq<Item>, fact: seq<Item>, p: Cell -> bool)
    requires forall i :: 0 <= i < |plan| ==> plan[i].amount >= 0.0 && p(plan[i].key)
    ensures Weighted(plan, fact, p) >= SumWhere(plan, p)
    ensures !Harmless(plan, fact) ==> Weighted(plan, fact, p) > SumWhere(plan, p)
  {
    if plan != [] {
      var n := |Matches(fact, plan[0].key)|;
      assert forall i :: 0 <= i < |plan[1..]| ==> plan[1..][i] == plan[i + 1];
      WeightedExceeds(plan[1..], fact, p);
      if plan[0].amount == 0.0 {
        TimesNothing(AtLeastOne(n));
      } else {
        TimesAmount(AtLeastOne(n), plan[0].amount);
      }
      if (n <= 1 || plan[0].amount == 0.0) && !Harmless(plan, fact) {
        var i :| 0 <= i < |plan| && |Matches(fact, plan[i].key)| > 1 && plan[i].amount != 0.0;
        assert plan[1..][i - 1] == plan[i];
      }
    }
  }

  /** Without negative amounts already the plan total tells: it survives exactly when the join is harmless. */
  lemma {:induction false} JoinKeepsTotalExactly(plan: seq<Item>, fact: seq<Item>, all: Cell -> bool)
    requires forall i :: 0 <= i < |plan| ==> plan[i].amount >= 0.0 && all(plan[i].key)
    ensures PlanSum(OuterJoin(plan, fact), all) == SumWhere(plan, all) <==> Harmless(plan, fact)
  {
    JoinWeighsPlan(plan, fact, all);
    WeightedExceeds(plan, fact, all);
    if Harmless(plan, fact) {
      WeightedOnce(plan, fact, all);
    }
  }
}
