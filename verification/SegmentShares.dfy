/** Shares of segments in a metric: sums, ranking, rounding, and what the rounded shares still promise. */
module SegmentShares {
  import opened Options
  import opened Lists

  /** One row of the frame; a value that is not a number is absent. */
  datatype Entry = Entry(name: string, value: Option<real>)

  datatype Segment = Segment(name: string, amount: real)

  datatype ShareRow = ShareRow(name: string, value: real, share: real)

  predicate Occurs(entries: seq<Entry>, name: string) {
    exists i :: 0 <= i < |entries| && entries[i].name == name && entries[i].value.Some?
  }

  /** `groupby("segment").sum()` at one segment, rows without a value dropped. */
  function SumOf(entries: seq<Entry>, name: string): real {
    if entries == [] then 0.0
    else
      (if entries[0].name == name && entries[0].value.Some? then entries[0].value.value else 0.0) +
      SumOf(entries[1..], name)
  }

  function ValueSum(entries: seq<Entry>): real {
    if entries == [] then 0.0
    else (if entries[0].value.Some? then entries[0].value.value else 0.0) + ValueSum(entries[1..])
  }

  /** Some result of the descending sort: each segment once, larger sums first, ties in any order. */
  ghost predicate IsRanking(order: seq<string>, entries: seq<Entry>) {
    NoDuplicates(order) && (forall name :: name in order <==> Occurs(entries, name)) &&
    forall i, j :: 0 <= i < j < |order| ==> SumOf(entries, order[i]) >= SumOf(entries, order[j])
  }

  function Ranked(entries: seq<Entry>, order: seq<string>): seq<Segment> {
    seq(|order|, i requires 0 <= i < |order| => Segment(order[i], SumOf(entries, order[i])))
  }

  /** The length of `head(limit)`: a negative limit leaves that many off at the end. */
  function HeadLength(n: nat, limit: int): nat {
    if limit >= n then n else if limit >= 0 then limit else if n + limit >= 0 then n + limit else 0
  }

  function Listed(entries: seq<Entry>, order: seq<string>, limit: int): seq<Segment> {
    Ranked(entries, order)[..HeadLength(|order|, limit)]
  }

  function Amounts(segs: seq<Segment>): real {
    if segs == [] then 0.0 else segs[0].amount + Amounts(segs[1..])
  }

  // ----- rounding -----

  /** `round(x, 2)` on exact numbers: to the nearest hundredth, a tie to the even one. */
  function Hundredths(x: real): int {
    var f := (x * 100.0).Floor;
    var d := x * 100.0 - f as real;
    if d < 0.5 || (d == 0.5 && f % 2 == 0) then f else f + 1
  }

  function Round2(x: real): real {
    Hundredths(x) as real / 100.0
  }

  function Distance(x: real, y: real): real {
    if x >= y then x - y else y - x
  }

  /** The error is at most half a hundredth. */
  lemma RoundingError(x: real)
    ensures -0.005 <= Round2(x) - x <= 0.005
  {
  }

  /** No hundredth is nearer, and between two equally near ones the even one is taken. */
  lemma RoundingIsNearest(x: real, n: int)
    ensures Distance(n as real / 100.0, x) >= Distance(Round2(x), x)
    ensures n != Hundredths(x) && Distance(n as real / 100.0, x) == Distance(Round2(x), x) ==> Hundredths(x) % 2 == 0
  {
  }

  // ----- shares -----

  function Share(amount: real, total: real): real
    requires total > 0.0
  {
    amount / total * 100.0
  }

  function RowsOf(segs: seq<Segment>, total: real): seq<ShareRow>
    requires total > 0.0
  {
    seq(|segs|, i requires 0 <= i < |segs| =>
      ShareRow(segs[i].name, segs[i].amount, Round2(Share(segs[i].amount, total))))
  }

  /** No rows unless the listed sums have a positive total. */
  function SharesOf(listed: seq<Segment>): seq<ShareRow> {
    if Amounts(listed) <= 0.0 then [] else RowsOf(listed, Amounts(listed))
  }

  const OVERLOAD_THRESHOLD := 35.0

  method ComputeSegmentShares(entries: seq<Entry>, order: seq<string>, limit: int) returns (rows: seq<ShareRow>)
    requires IsRanking(order, entries)
    ensures rows == SharesOf(Listed(entries, order, limit))
  {
    var agg := Listed(entries, order, limit);
    var total := Amounts(agg);
    rows := [];
    if total <= 0.0 {
      return;
    }
    for i := 0 to |agg|
      invariant rows == RowsOf(agg[..i], total)
    {
      var share := agg[i].amount / total * 100.0;
      rows := rows + [ShareRow(agg[i].name, agg[i].amount, Round2(share))];
    }
    assert agg[..|agg|] == agg;
  }

  /** `detect_overload_segments` */
  function Overloaded(rows: seq<ShareRow>, threshold: real): seq<ShareRow> {
    if rows == [] then []
    else (if rows[0].share >= threshold then [rows[0]] else []) + Overloaded(rows[1..], threshold)
  }

  function ShareSum(rows: seq<ShareRow>): real {
    if rows == [] then 0.0 else rows[0].share + ShareSum(rows[1..])
  }

  function ExactSum(segs: seq<Segment>, total: real): real
    requires total > 0.0
  {
    if segs == [] then 0.0 else Share(segs[0].amount, total) + ExactSum(segs[1..], total)
  }

  lemma ShareSign(amount: real, total: real)
    requires total > 0.0
    ensures amount >= 0.0 ==> Share(amount, total) >= 0.0
  {
    var q := amount / total;
    assert q * total == amount;
    assert q < 0.0 ==> q * total < 0.0;
  }

  lemma {:induction false} ExactTimes(segs: seq<Segment>, total: real) returns (s: real, a: real)
    requires total > 0.0
    ensures s == ExactSum(segs, total) && a == Amounts(segs) && s * total == a * 100.0
  {
    if segs == [] {
      s, a := 0.0, 0.0;
    } else {
      var s1, a1 := ExactTimes(segs[1..], total);
      var share := Share(segs[0].amount, total);
      s, a := share + s1, segs[0].amount + a1;
    }
  }

  lemma CancelTotal(s: real, total: real, a: real)
    requires a == total > 0.0 && s * total == a * 100.0
    ensures s == 100.0
  {
    assert s == total * 100.0 / total;
  }

  lemma ExactIsHundred(listed: seq<Segment>, total: real)
    requires total == Amounts(listed) > 0.0
    ensures ExactSum(listed, total) == 100.0
  {
    var s, a := ExactTimes(listed, total);
    CancelTotal(s, total, a);
  }

  lemma {:induction false} RoundedNearExact(segs: seq<Segment>, total: real)
    requires total > 0.0
    ensures -0.005 * |segs| as real <= ShareSum(RowsOf(segs, total)) - ExactSum(segs, total) <= 0.005 * |segs| as real
  {
    if segs != [] {
      RoundedNearExact(segs[1..], total);
      RowsStep(segs, total);
      RoundingError(Share(segs[0].amount, total));
    }
  }

  /** The rounded shares of n listed segments add up to 100 within n times 0.005, whatever the signs of the sums. */
  lemma SharesAddUp(listed: seq<Segment>)
    requires Amounts(listed) > 0.0
    ensures |SharesOf(listed)| == |listed|
    ensures -0.005 * |listed| as real <= ShareSum(SharesOf(listed)) - 100.0 <= 0.005 * |listed| as real
  {
    RoundedNearExact(listed, Amounts(listed));
    ExactIsHundred(listed, Amounts(listed));
  }

  predicate NonNegative(segs: seq<Segment>) {
    forall i :: 0 <= i < |segs| ==> segs[i].amount >= 0.0
  }

  /** The weight c once for each of k segments. */
  function Weight(k: nat, c: real): real {
    if k == 0 then 0.0 else c + Weight(k - 1, c)
  }

  lemma {:induction false} WeightIsProduct(k: nat, c: real)
    ensures Weight(k, c) == k as real * c
  {
    if k > 0 {
      WeightIsProduct(k - 1, c);
      assert k as real * c == c + (k - 1) as real * c;
    }
  }

  lemma {:induction false} FlaggedWeigh(segs: seq<Segment>, total: real, threshold: real)
    requires total > 0.0 && NonNegative(segs)
    ensures Weight(|Overloaded(RowsOf(segs, total), threshold)|, threshold - 0.005) <= ExactSum(segs, total)
  {
    if segs != [] {
      var rest := segs[1..];
      assert NonNegative(rest);
      FlaggedWeigh(rest, total, threshold);
      RowsStep(segs, total);
      ShareSign(segs[0].amount, total);
      RoundingError(Share(segs[0].amount, total));
    }
  }

  lemma RowsStep(segs: seq<Segment>, total: real)
    requires segs != [] && total > 0.0
    ensures RowsOf(segs, total)[0].share == Round2(Share(segs[0].amount, total))
    ensures RowsOf(segs, total)[1..] == RowsOf(segs[1..], total)
  {
  }

  /** Among segments with no negative sum, the number flagged times (threshold - 0.005) is at most 100. */
  lemma FlaggedBound(listed: seq<Segment>, threshold: real, flagged: nat)
    requires NonNegative(listed) && flagged == |Overloaded(SharesOf(listed), threshold)|
    ensures flagged as real * (threshold - 0.005) <= 100.0
  {
    if Amounts(listed) > 0.0 {
      FlaggedWeigh(listed, Amounts(listed), threshold);
      WeightIsProduct(flagged, threshold - 0.005);
      ExactIsHundred(listed, Amounts(listed));
    }
  }

  lemma AtMostTwoOverloaded(listed: seq<Segment>)
    requires NonNegative(listed)
    ensures |Overloaded(SharesOf(listed), OVERLOAD_THRESHOLD)| <= 2
  {
    FlaggedBound(listed, OVERLOAD_THRESHOLD, |Overloaded(SharesOf(listed), OVERLOAD_THRESHOLD)|);
  }

  ghost predicate DescendingAmounts(segs: seq<Segment>) {
    forall i, j :: 0 <= i < j < |segs| ==> segs[i].amount >= segs[j].amount
  }

  lemma ListedDescend(entries: seq<Entry>, order: seq<string>, limit: int)
    requires IsRanking(order, entries)
    ensures DescendingAmounts(Listed(entries, order, limit))
  {
    var listed := Listed(entries, order, limit);
    assert forall i :: 0 <= i < |listed| ==> listed[i].amount == SumOf(entries, order[i]);
  }

  lemma RoundingKeepsOrder(x: real, y: real)
    requires x <= y
    ensures Round2(x) <= Round2(y)
  {
    assert (x * 100.0).Floor <= (y * 100.0).Floor;
    assert Hundredths(x) <= Hundredths(y);
  }

  lemma ShareKeepsOrder(a: real, b: real, total: real)
    requires total > 0.0 && a <= b
    ensures Share(a, total) <= Share(b, total)
  {
    ShareSign(b - a, total);
    assert Share(b, total) == Share(a, total) + Share(b - a, total);
  }

  lemma RowsDescend(segs: seq<Segment>, total: real, i: nat, j: nat)
    requires total > 0.0 && DescendingAmounts(segs) && i <= j < |segs|
    ensures RowsOf(segs, total)[i].share >= RowsOf(segs, total)[j].share
  {
    if i < j {
      ShareKeepsOrder(segs[j].amount, segs[i].amount, total);
      RoundingKeepsOrder(Share(segs[j].amount, total), Share(segs[i].amount, total));
    }
  }

  lemma {:induction false} NoneOverloaded(rows: seq<ShareRow>, threshold: real)
    requires forall i :: 0 <= i < |rows| ==> rows[i].share < threshold
    ensures Overloaded(rows, threshold) == []
  {
    if rows != [] {
      assert forall i :: 0 <= i < |rows[1..]| ==> rows[1..][i] == rows[i + 1];
      NoneOverloaded(rows[1..], threshold);
    }
  }

  lemma {:induction false} FlaggedAreFirst(rows: seq<ShareRow>, threshold: real, m: nat)
    requires forall i, j :: 0 <= i < j < |rows| ==> rows[i].share >= rows[j].share
    ensures |Overloaded(rows, threshold)| > m <==> |rows| > m && rows[m].share >= threshold
  {
    if rows != [] {
      var rest := rows[1..];
      assert forall i :: 0 <= i < |rest| ==> rest[i] == rows[i + 1];
      if rows[0].share < threshold {
        NoneOverloaded(rows, threshold);
      } else if m > 0 {
        FlaggedAreFirst(rest, threshold, m - 1);
      }
    }
  }

  /** Whatever the signs, more than m listed segments are flagged exactly when there are more than m and the rounded
      share of the one ranked next, which is the m-th counted from zero, reaches the threshold. */
  lemma FlaggedExactly(listed: seq<Segment>, threshold: real, m: nat)
    requires Amounts(listed) > 0.0 && DescendingAmounts(listed)
    ensures |Overloaded(SharesOf(listed), threshold)| > m <==>
            |listed| > m && Round2(Share(listed[m].amount, Amounts(listed))) >= threshold
  {
    var rows := RowsOf(listed, Amounts(listed));
    forall i, j | 0 <= i < j < |rows|
      ensures rows[i].share >= rows[j].share
    {
      RowsDescend(listed, Amounts(listed), i, j);
    }
    FlaggedAreFirst(rows, threshold, m);
  }

  /** With a negative sum more than two segments can hold more than a third each. */
  lemma {:induction false} NegativeSumsOverloadThree()
    ensures var listed := [Segment("a", 100.0), Segment("b", 100.0), Segment("c", 100.0), Segment("d", -200.0)];
            |Overloaded(SharesOf(listed), OVERLOAD_THRESHOLD)| == 3
  {
    var d := [Segment("d", -200.0)];
    var c := [Segment("c", 100.0)] + d;
    var b := [Segment("b", 100.0)] + c;
    var listed := [Segment("a", 100.0)] + b;
    assert listed == [Segment("a", 100.0), Segment("b", 100.0), Segment("c", 100.0), Segment("d", -200.0)];
    assert d[1..] == [] && c[1..] == d && b[1..] == c && listed[1..] == b;
    assert Amounts(d) == -200.0 && Amounts(c) == -100.0 && Amounts(b) == 0.0 && Amounts(listed) == 100.0;
    var rows := RowsOf(listed, 100.0);
    assert rows[1..] == RowsOf(b, 100.0) && rows[2..] == RowsOf(c, 100.0) && rows[3..] == RowsOf(d, 100.0) &&
           rows[4..] == [];
    assert rows[1..][1..] == rows[2..] && rows[2..][1..] == rows[3..] && rows[3..][1..] == rows[4..];
    assert Overloaded(rows[3..], 35.0) == [];
    assert |Overloaded(rows[2..], 35.0)| == 1;
    assert |Overloaded(rows[1..], 35.0)| == 2;
  }

  // ----- which segments are listed -----

  /** A limit lists that many segments, or all if there are fewer; a negative one leaves that many out. */
  lemma ListedExactly(entries: seq<Entry>, order: seq<string>, limit: int)
    ensures var listed, n := Listed(entries, order, limit), |order|;
            (0 <= limit <= n ==> |listed| == limit) && (limit > n ==> |listed| == n) &&
            (-n <= limit < 0 ==> |listed| == n + limit) && (limit < -n ==> listed == []) &&
            forall k :: 0 <= k < |listed| ==> listed[k] == Segment(order[k], SumOf(entries, order[k]))
  {
  }

  /** Every listed segment has at least the sum of every segment left out. */
  lemma ListedAreLargest(entries: seq<Entry>, order: seq<string>, limit: int, k: nat, name: string)
    requires IsRanking(order, entries) && k < |Listed(entries, order, limit)|
    requires Occurs(entries, name) &&
             forall i :: 0 <= i < |Listed(entries, order, limit)| ==> Listed(entries, order, limit)[i].name != name
    ensures Listed(entries, order, limit)[k] == Segment(order[k], SumOf(entries, order[k]))
    ensures SumOf(entries, order[k]) >= SumOf(entries, name)
  {
    var listed := Listed(entries, order, limit);
    assert forall i :: 0 <= i < |listed| ==> listed[i].name == order[i];
    var j :| 0 <= j < |order| && order[j] == name;
    assert j >= |listed|;
  }

  lemma {:induction false} AmountsSplit(a: seq<Segment>, b: seq<Segment>)
    ensures Amounts(a + b) == Amounts(a) + Amounts(b)
  {
    if a == [] {
      NilSeq(b);
    } else {
      AmountsSplit(a[1..], b);
      assert (a + b)[1..] == a[1..] + b;
    }
  }

  lemma {:induction false} RankedNothing(order: seq<string>)
    ensures Amounts(Ranked([], order)) == 0.0
  {
    if order != [] {
      RankedNothing(order[1..]);
      assert Ranked([], order)[1..] == Ranked([], order[1..]);
    }
  }

  lemma {:induction false} RankedStep(entries: seq<Entry>, order: seq<string>)
    requires entries != [] && NoDuplicates(order)
    ensures Amounts(Ranked(entries, order)) == Amounts(Ranked(entries[1..], order)) +
              if entries[0].name in order && entries[0].value.Some? then entries[0].value.value else 0.0
  {
    if order != [] {
      var rest := order[1..];
      assert order == [order[0]] + rest;
      assert forall i :: 0 <= i < |rest| ==> rest[i] == order[i + 1];
      RankedStep(entries, rest);
      assert Ranked(entries, order)[1..] == Ranked(entries, rest);
      assert Ranked(entries[1..], order)[1..] == Ranked(entries[1..], rest);
    }
  }

  /** No value is lost in the sums: they add up to all the values there are. */
  lemma {:induction false} SumsConserve(entries: seq<Entry>, order: seq<string>)
    requires NoDuplicates(order)
    requires forall i :: 0 <= i < |entries| && entries[i].value.Some? ==> entries[i].name in order
    ensures Amounts(Ranked(entries, order)) == ValueSum(entries)
  {
    if entries == [] {
      RankedNothing(order);
    } else {
      RankedStep(entries, order);
      assert entries == [entries[0]] + entries[1..];
      SumsConserve(entries[1..], order);
    }
  }

  lemma {:induction false} NoAmount(segs: seq<Segment>)
    requires NonNegative(segs)
    ensures Amounts(segs) >= 0.0
    ensures Amounts(segs) == 0.0 <==> forall i :: 0 <= i < |segs| ==> segs[i].amount == 0.0
  {
    if segs != [] {
      NoAmount(segs[1..]);
      assert segs == [segs[0]] + segs[1..];
    }
  }

  lemma LeftOutSplits(all: seq<Segment>, n: nat)
    requires n <= |all|
    ensures Amounts(all) == Amounts(all[..n]) + Amounts(all[n..])
  {
    assert all == all[..n] + all[n..];
    AmountsSplit(all[..n], all[n..]);
  }

  /** The segments that `head(limit)` leaves out. */
  function LeftOut(entries: seq<Entry>, order: seq<string>, limit: int): seq<Segment> {
    Ranked(entries, order)[HeadLength(|order|, limit)..]
  }

  /** Shares are taken of the listed total. It is the total of the whole metric, as the documentation says, exactly
      when the segments left out sum to nothing; without negative sums, when each of them has the sum zero. */
  lemma SharesAreOfTheWholeExactly(entries: seq<Entry>, order: seq<string>, limit: int)
    requires IsRanking(order, entries)
    ensures var listed, rest := Listed(entries, order, limit), LeftOut(entries, order, limit);
            (Amounts(listed) == ValueSum(entries) <==> Amounts(rest) == 0.0) &&
            (NonNegative(rest) ==>
               (Amounts(listed) == ValueSum(entries) <==> forall j :: 0 <= j < |rest| ==> rest[j].amount == 0.0))
  {
    LeftOutSplits(Ranked(entries, order), HeadLength(|order|, limit));
    SumsConserve(entries, order);
    if NonNegative(LeftOut(entries, order, limit)) {
      NoAmount(LeftOut(entries, order, limit));
    }
  }

  /** Two segments and a limit of one: the listed segment has a share of 100, and two thirds of the metric. */
  lemma LimitHidesAThird()
    ensures var entries := [Entry("a", Some(2.0)), Entry("b", Some(1.0))];
            var listed := Listed(entries, ["a", "b"], 1);
            IsRanking(["a", "b"], entries) && listed == [Segment("a", 2.0)] && ValueSum(entries) == 3.0 &&
            SharesOf(listed) == [ShareRow("a", 2.0, 100.0)]
  {
    var b := [Entry("b", Some(1.0))];
    var entries := [Entry("a", Some(2.0))] + b;
    assert entries == [Entry("a", Some(2.0)), Entry("b", Some(1.0))] && entries[1..] == b && b[1..] == [];
    assert SumOf(b, "a") == 0.0 && SumOf(b, "b") == 1.0;
    assert SumOf(entries, "a") == 2.0 && SumOf(entries, "b") == 1.0;
    assert entries[0].name == "a" && entries[1].name == "b";
    assert Occurs(entries, "a") && Occurs(entries, "b");
    var listed := Listed(entries, ["a", "b"], 1);
    assert listed == [Segment("a", 2.0)];
    assert listed[1..] == [] && Amounts(listed) == 2.0;
    assert Share(2.0, 2.0) == 100.0 && Round2(100.0) == 100.0;
  }

  // ----- a ranking exists -----

  function Insert(name: string, order: seq<string>, entries: seq<Entry>): seq<string> {
    if order == [] || SumOf(entries, name) >= SumOf(entries, order[0]) then [name] + order
    else [order[0]] + Insert(name, order[1..], entries)
  }

  ghost predicate Descending(order: seq<string>, entries: seq<Entry>) {
    forall i, j :: 0 <= i < j < |order| ==> SumOf(entries, order[i]) >= SumOf(entries, order[j])
  }

  lemma {:induction false} InsertHolds(name: string, order: seq<string>, entries: seq<Entry>)
    ensures forall x :: x in Insert(name, order, entries) <==> x == name || x in order
  {
    if order != [] && SumOf(entries, name) < SumOf(entries, order[0]) {
      assert order == [order[0]] + order[1..];
      InsertHolds(name, order[1..], entries);
    }
  }

  lemma {:induction false} InsertRanks(name: string, order: seq<string>, entries: seq<Entry>)
    requires NoDuplicates(order) && name !in order && Descending(order, entries)
    ensures NoDuplicates(Insert(name, order, entries)) && Descending(Insert(name, order, entries), entries)
  {
    if order != [] && SumOf(entries, name) < SumOf(entries, order[0]) {
      var rest := order[1..];
      assert forall i :: 0 <= i < |rest| ==> rest[i] == order[i + 1];
      InsertRanks(name, rest, entries);
      InsertHolds(name, rest, entries);
      HeadRanks(order[0], Insert(name, rest, entries), entries);
    } else if order != [] {
      forall x | x in order
        ensures SumOf(entries, x) <= SumOf(entries, name) && x != name
      {
        var i :| 0 <= i < |order| && order[i] == x;
        assert SumOf(entries, order[i]) <= SumOf(entries, order[0]);
      }
      HeadRanks(name, order, entries);
    }
  }

  lemma HeadRanks(name: string, order: seq<string>, entries: seq<Entry>)
    requires NoDuplicates(order) && Descending(order, entries)
    requires forall x :: x in order ==> x != name && SumOf(entries, x) <= SumOf(entries, name)
    ensures NoDuplicates([name] + order) && Descending([name] + order, entries)
  {
    ConsDistinct(name, order);
    HeadDescends(name, order, entries);
  }

  lemma HeadDescends(name: string, order: seq<string>, entries: seq<Entry>)
    requires Descending(order, entries)
    requires forall k :: 0 <= k < |order| ==> SumOf(entries, order[k]) <= SumOf(entries, name)
    ensures Descending([name] + order, entries)
  {
  }

  /** Whatever the entries, there is a ranking, so what is proved of every ranking is never proved of none. */
  lemma {:induction false} RankingExists(entries: seq<Entry>, k: nat) returns (order: seq<string>)
    requires k <= |entries|
    ensures NoDuplicates(order) && Descending(order, entries)
    ensures forall x :: x in order <==> Occurs(entries[..k], x)
    ensures k == |entries| ==> IsRanking(order, entries)
  {
    if k == 0 {
      order := [];
    } else {
      var rest := RankingExists(entries, k - 1);
      var e := entries[k - 1];
      assert entries[..k] == entries[..k - 1] + [e];
      OccursSnoc(entries[..k - 1], e);
      if e.value.Some? && e.name !in rest {
        InsertRanks(e.name, rest, entries);
        InsertHolds(e.name, rest, entries);
        order := Insert(e.name, rest, entries);
      } else {
        order := rest;
      }
      assert k == |entries| ==> entries[..k] == entries;
    }
  }

  lemma OccursSnoc(entries: seq<Entry>, e: Entry)
    ensures forall x :: Occurs(entries + [e], x) <==> Occurs(entries, x) || (e.value.Some? && x == e.name)
  {
    forall x
      ensures Occurs(entries + [e], x) <==> Occurs(entries, x) || (e.value.Some? && x == e.name)
    {
      assert (entries + [e])[|entries|] == e;
      assert forall i :: 0 <= i < |entries| ==> (entries + [e])[i] == entries[i];
    }
  }
}
