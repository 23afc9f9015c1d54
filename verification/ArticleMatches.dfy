/** Which plan article a fact row is matched to and what the joined tables hold, row by row. */
module ArticleMatches {
  import opened Options
  import opened Grouping
  import opened PlanFact

  // ----- the match -----

  /** The first candidate with the key. */
  predicate FirstAt(cs: seq<Candidate>, key: string, i: int) {
    0 <= i < |cs| && cs[i].key == key && forall j :: 0 <= j < i ==> cs[j].key != key
  }

  predicate NoneAt(cs: seq<Candidate>, key: string) {
    forall j :: 0 <= j < |cs| ==> cs[j].key != key
  }

  /** The first of the candidates most similar to the key. */
  ghost predicate MostSimilar(x: Matcher, key: string, cs: seq<Candidate>, i: int) {
    0 <= i < |cs| && forall j :: 0 <= j < |cs| ==>
      var s, t := x.similarity(key, cs[j].key), x.similarity(key, cs[i].key);
      s <= t && (j < i ==> s < t)
  }

  /** A match by similarity: from 0.90 on automatic, from 0.75 on a suggestion, below that none. */
  ghost predicate IsSimilar(r: Match, x: Matcher, key: string, cs: seq<Candidate>) {
    if !x.fuzzy || cs == [] then r == Match(Unmatched, 0.0, "", "")
    else
      exists i :: MostSimilar(x, key, cs, i) &&
        var c, score := cs[i], x.similarity(key, cs[i].key);
        r == if score >= 0.90 then Match(FuzzyAuto, score, c.key, c.article)
             else if score >= 0.75 then Match(FuzzySuggested, score, c.key, c.article)
             else Match(Unmatched, score, "", "")
  }

  /** The hand-made entry of the key, or the built-in one; "" when there is none. */
  predicate IsEntry(x: Matcher, key: string, d: string) {
    if key in x.manual && x.manual[key] != "" then d == x.manual[key]
    else if key in x.dictionary then d == x.dictionary[key]
    else d == ""
  }

  /** The match through an entry for the key. */
  ghost predicate IsEntered(r: Match, x: Matcher, key: string, cs: seq<Candidate>, target: string) {
    exists i ::
      FirstAt(cs, target, i) &&
      r == Match(if key in x.manual then Manual else Dictionary, 1.0, cs[i].key, cs[i].article)
  }

  /** A match of a key that no candidate has: through its entry, or by similarity. */
  ghost predicate IsIndirect(r: Match, x: Matcher, key: string, cs: seq<Candidate>) {
    exists d ::
      IsEntry(x, key, d) &&
      if d == "" || NoneAt(cs, x.normalize(d)) then IsSimilar(r, x, key, cs)
      else IsEntered(r, x, key, cs, x.normalize(d))
  }

  /** The match of a fact article: none for a blank key, else the candidate with the same key, else an indirect one. */
  ghost predicate IsMatch(r: Match, x: Matcher, factKey: string, factArticle: string, cs: seq<Candidate>) {
    var key := x.normalize(if factKey != "" then factKey else factArticle);
    if key == "" then r == Match(Unmatched, 0.0, "", "")
    else if NoneAt(cs, key) then IsIndirect(r, x, key, cs)
    else exists i :: FirstAt(cs, key, i) && r == Match(Exact, 1.0, key, cs[i].article)
  }

  lemma {:induction false} FoundFirst(cs: seq<Candidate>, key: string) returns (i: nat)
    ensures match FirstWithKey(cs, key)
            case Some(c) => FirstAt(cs, key, i) && c == cs[i]
            case None => NoneAt(cs, key)
  {
    i := 0;
    if cs != [] && cs[0].key != key {
      var j := FoundFirst(cs[1..], key);
      assert forall k :: 0 <= k < |cs| - 1 ==> cs[1..][k] == cs[k + 1];
      i := j + 1;
    }
  }

  lemma SimilarIs(x: Matcher, key: string, cs: seq<Candidate>)
    ensures IsSimilar(FuzzyMatch(x, key, cs), x, key, cs)
  {
    if x.fuzzy && cs != [] {
      var i := BestIndex(x, key, cs);
      assert IsBest(x, key, cs, i);
      assert MostSimilar(x, key, cs, i);
    }
  }

  lemma IndirectIs(x: Matcher, factKey: string, factArticle: string, cs: seq<Candidate>)
    requires var key := x.normalize(if factKey != "" then factKey else factArticle); key != "" && NoneAt(cs, key)
    ensures var key := x.normalize(if factKey != "" then factKey else factArticle);
            IsIndirect(MatchArticle(x, factKey, factArticle, cs), x, key, cs)
  {
    var key := x.normalize(if factKey != "" then factKey else factArticle);
    var d := DictionaryKey(x, key);
    var i := FoundFirst(cs, key);
    var j := FoundFirst(cs, x.normalize(d));
    assert IsEntry(x, key, d);
    SimilarIs(x, key, cs);
  }

  lemma MatchExactly(x: Matcher, factKey: string, factArticle: string, cs: seq<Candidate>)
    ensures IsMatch(MatchArticle(x, factKey, factArticle, cs), x, factKey, factArticle, cs)
  {
    var key := x.normalize(if factKey != "" then factKey else factArticle);
    var i := FoundFirst(cs, key);
    if key != "" && NoneAt(cs, key) {
      IndirectIs(x, factKey, factArticle, cs);
    }
  }

  /** What matching does to every row: the article key becomes that of a match by hand, by dictionary or by a similarity
      of at least 0.90 among the plan articles of the row's CFO and extra key; nothing else changes. */
  lemma MatchRowsExactly(x: Matcher, lookup: Lookup, rows: seq<Row>, i: nat)
    requires i < |rows|
    ensures |MatchRows(x, lookup, rows)| == |rows|
    ensures var r, now := rows[i], MatchRows(x, lookup, rows)[i];
            var cs := if (r.cell.cfo, r.cell.extra) in lookup then lookup[(r.cell.cfo, r.cell.extra)] else [];
            exists m :: IsMatch(m, x, r.cell.article, r.article, cs) &&
              now == if m.kind in [Manual, Dictionary, FuzzyAuto] && m.key != ""
                     then Row(Cell(r.cell.cfo, m.key, r.cell.extra, r.cell.period), r.amount, r.ids, r.article) else r
  {
    var r := rows[i];
    MatchExactly(x, r.cell.article, r.article, CandidatesFor(lookup, r.cell));
  }

  // ----- grouping -----

  /** A group keeps the article text of its first row. */
  lemma {:induction false} GroupArticle(rows: seq<Row>, k: Cell, i: nat)
    requires i < |rows| && rows[i].cell == k && forall j :: 0 <= j < i ==> rows[j].cell != k
    ensures FirstArticle(rows, k) == rows[i].article
  {
    if i > 0 {
      assert forall j :: 0 <= j < i - 1 ==> rows[1..][j].cell != k;
      GroupArticle(rows[1..], k, i - 1);
    }
  }

  // ----- the joined rows -----

  predicate IsPair(j: Joined, p: Item, f: Item) {
    p.key == f.key && j == Joined(p.key, p.amount, f.amount)
  }

  /** A pair of a plan and a fact row with one key, or a row whose key the other side does not have. */
  ghost predicate IsJoined(j: Joined, plan: seq<Item>, fact: seq<Item>) {
    (exists p, f :: p in plan && f in fact && IsPair(j, p, f)) ||
    (exists p :: p in plan && (forall f :: f in fact ==> f.key != p.key) && j == Joined(p.key, p.amount, 0.0)) ||
    (exists f :: f in fact && (forall p :: p in plan ==> p.key != f.key) && j == Joined(f.key, 0.0, f.amount))
  }

  lemma {:induction false} MatchesAre(fact: seq<Item>, k: Cell, f: Item)
    ensures f in Matches(fact, k) <==> f in fact && f.key == k
  {
    if fact != [] {
      MatchesAre(fact[1..], k, f);
      assert fact == [fact[0]] + fact[1..];
    }
  }

  lemma NoMatches(fact: seq<Item>, k: Cell)
    ensures Matches(fact, k) == [] <==> forall f :: f in fact ==> f.key != k
  {
    forall f
      ensures f in Matches(fact, k) <==> f in fact && f.key == k
    {
      MatchesAre(fact, k, f);
    }
    if Matches(fact, k) != [] {
      assert Matches(fact, k)[0] in Matches(fact, k);
    }
  }

  ghost predicate FromPlan(j: Joined, p: Item, fact: seq<Item>) {
    (exists f :: f in fact && IsPair(j, p, f)) ||
    ((forall f :: f in fact ==> f.key != p.key) && j == Joined(p.key, p.amount, 0.0))
  }

  lemma JoinRowIs(p: Item, fact: seq<Item>, j: Joined)
    ensures j in JoinRow(p, Matches(fact, p.key)) <==> FromPlan(j, p, fact)
  {
    var ms := Matches(fact, p.key);
    NoMatches(fact, p.key);
    forall f
      ensures f in ms <==> f in fact && f.key == p.key
    {
      MatchesAre(fact, p.key, f);
    }
    if ms != [] {
      var js := JoinRow(p, ms);
      if j in js {
        var i :| 0 <= i < |js| && js[i] == j;
        assert ms[i] in ms && IsPair(j, p, ms[i]);
      }
      if f :| f in fact && IsPair(j, p, f) {
        assert f in ms;
        var i :| 0 <= i < |ms| && ms[i] == f;
        assert js[i] == j;
      }
    }
  }

  ghost predicate FromSome(j: Joined, plan: seq<Item>, fact: seq<Item>) {
    exists p :: p in plan && FromPlan(j, p, fact)
  }

  lemma FromSomeCons(j: Joined, plan: seq<Item>, fact: seq<Item>)
    requires plan != []
    ensures FromSome(j, plan, fact) <==> FromPlan(j, plan[0], fact) || FromSome(j, plan[1..], fact)
  {
    assert plan == [plan[0]] + plan[1..];
    if p :| p in plan && FromPlan(j, p, fact) {
      assert p == plan[0] || p in plan[1..];
    }
  }

  lemma {:induction false} LeftIs(plan: seq<Item>, fact: seq<Item>, j: Joined)
    ensures j in LeftRows(plan, fact) <==> FromSome(j, plan, fact)
  {
    if plan != [] {
      LeftIs(plan[1..], fact, j);
      JoinRowIs(plan[0], fact, j);
      FromSomeCons(j, plan, fact);
    }
  }

  lemma {:induction false} RightIs(plan: seq<Item>, fact: seq<Item>, j: Joined)
    ensures j in RightRows(plan, fact) <==>
            exists f :: f in fact && (forall p :: p in plan ==> p.key != f.key) && j == Joined(f.key, 0.0, f.amount)
  {
    if fact != [] {
      RightIs(plan, fact[1..], j);
      NoMatches(plan, fact[0].key);
      assert fact == [fact[0]] + fact[1..];
    }
  }

  /** The outer join holds exactly the pairs with one key and the rows whose key the other side lacks. */
  lemma JoinExactly(plan: seq<Item>, fact: seq<Item>, j: Joined)
    ensures j in OuterJoin(plan, fact) <==> IsJoined(j, plan, fact)
  {
    LeftIs(plan, fact, j);
    RightIs(plan, fact, j);
    FromSomeIs(j, plan, fact);
  }

  lemma FromSomeIs(j: Joined, plan: seq<Item>, fact: seq<Item>)
    ensures FromSome(j, plan, fact) <==>
            (exists p, f :: p in plan && f in fact && IsPair(j, p, f)) ||
            (exists p :: p in plan && (forall f :: f in fact ==> f.key != p.key) && j == Joined(p.key, p.amount, 0.0))
  {
    if p, f :| p in plan && f in fact && IsPair(j, p, f) {
      assert FromPlan(j, p, fact);
    }
    if p :| p in plan && (forall f :: f in fact ==> f.key != p.key) && j == Joined(p.key, p.amount, 0.0) {
      assert FromPlan(j, p, fact);
    }
  }

  /** The share of a variance in the plan is given exactly when there is a plan, and is then the share. */
  lemma PercentExactly(js: seq<Joined>, i: nat)
    requires i < |js|
    ensures var v := WithVariance(js)[i];
            v.key == js[i].key && v.plan == js[i].plan && v.fact == js[i].fact && v.fact == v.plan + v.variance &&
            (v.percent == None <==> v.plan == 0.0) && (v.percent.Some? ==> v.percent.value * v.plan == v.variance)
  {
  }
}
