/** Plan and fact tables: grouping, CFO mapping, article matching, and what the joined tables conserve. */
module PlanFact {
  import opened Options
  import opened Lists
  import opened Grouping
  import opened RowIds

  /** A plan or fact row: its keys, its amount, its source row ids, its article text. */
  datatype Row = Row(cell: Cell, amount: real, ids: IdCell, article: string)

  function Items(rows: seq<Row>): seq<Item> {
    seq(|rows|, i requires 0 <= i < |rows| => Item(rows[i].cell, rows[i].amount))
  }

  /** The key of the CFO table. */
  function Coarse(c: Cell): Cell {
    Cell(c.cfo, "", "", c.period)
  }

  function Coarsened(rows: seq<Row>): seq<Row> {
    seq(|rows|, i requires 0 <= i < |rows| => rows[i].(cell := Coarse(rows[i].cell)))
  }

  function IdsAt(rows: seq<Row>, k: Cell): seq<IdCell> {
    if rows == [] then [] else (if rows[0].cell == k then [rows[0].ids] else []) + IdsAt(rows[1..], k)
  }

  function FirstArticle(rows: seq<Row>, k: Cell): string {
    if rows == [] then "" else if rows[0].cell == k then rows[0].article else FirstArticle(rows[1..], k)
  }

  /** `groupby(keys).agg(sum, collect, first)`: one row for each group, in the given order. */
  function GroupRows(rows: seq<Row>, order: seq<Cell>): seq<Row> {
    seq(|order|, i requires 0 <= i < |order| =>
      Row(order[i], SumAt(Items(rows), order[i]), Text(Collect(IdsAt(rows, order[i]))), FirstArticle(rows, order[i])))
  }

  // ----- CFO mapping -----

  /** `normalize_match_key` is taken as given. */
  datatype CfoMapping = CfoMapping(targets: map<string, string>, normalize: string -> string)

  function MapCell(m: CfoMapping, c: Cell): Cell {
    var k := m.normalize(c.cfo);
    if k in m.targets && m.targets[k] != "" then c.(cfo := m.targets[k]) else c
  }

  function MapRow(m: CfoMapping, r: Row): Row {
    r.(cell := MapCell(m, r.cell))
  }

  function MapRows(m: CfoMapping, rows: seq<Row>): seq<Row> {
    seq(|rows|, i requires 0 <= i < |rows| => MapRow(m, rows[i]))
  }

  /** One frame after `_apply_cfo_mapping`: rewritten and grouped again, or as it was without a mapping. */
  function CfoMapped(m: CfoMapping, rows: seq<Row>, order: seq<Cell>): seq<Row> {
    if m.targets == map[] then rows else GroupRows(MapRows(m, rows), order)
  }

  /** The loop over the frame's rows. */
  method RewriteCfo(frame: array<Row>, m: CfoMapping)
    modifies frame
    ensures frame[..] == MapRows(m, old(frame[..]))
  {
    ghost var before := frame[..];
    for i := 0 to frame.Length
      invariant forall k :: 0 <= k < i ==> frame[k] == MapRow(m, before[k])
      invariant forall k :: i <= k < frame.Length ==> frame[k] == before[k]
    {
      var r := frame[i];
      var k := m.normalize(r.cell.cfo);
      if k in m.targets && m.targets[k] != "" {
        frame[i] := r.(cell := r.cell.(cfo := m.targets[k]));
      }
    }
  }

  method ApplyCfoMapping(monthly: array<Row>, article: array<Row>, m: CfoMapping, months: seq<Cell>, cells: seq<Cell>)
      returns (newMonthly: seq<Row>, newArticle: seq<Row>)
    requires monthly != article
    modifies monthly, article
    ensures newMonthly == CfoMapped(m, old(monthly[..]), months)
    ensures newArticle == CfoMapped(m, old(article[..]), cells)
  {
    if m.targets == map[] {
      return monthly[..], article[..];
    }
    RewriteCfo(monthly, m);
    RewriteCfo(article, m);
    newMonthly, newArticle := GroupRows(monthly[..], months), GroupRows(article[..], cells);
  }

  // ----- article matching -----

  datatype Candidate = Candidate(key: string, article: string)

  datatype MatchKind = Exact | Manual | Dictionary | FuzzyAuto | FuzzySuggested | Unmatched

  datatype Match = Match(kind: MatchKind, confidence: real, key: string, article: string)

  /** What matching depends on; the normaliser and the similarity score are taken as given. */
  datatype Matcher = Matcher(normalize: string -> string, manual: map<string, string>, dictionary: map<string, string>,
                             similarity: (string, string) -> real, fuzzy: bool)

  const NO_MATCH := Match(Unmatched, 0.0, "", "")

  function FirstWithKey(cs: seq<Candidate>, key: string): Option<Candidate> {
    if cs == [] then None else if cs[0].key == key then Some(cs[0]) else FirstWithKey(cs[1..], key)
  }

  /** The manual entry unless it is empty, else the dictionary's. */
  function DictionaryKey(x: Matcher, key: string): string {
    if key in x.manual && x.manual[key] != "" then x.manual[key]
    else if key in x.dictionary then x.dictionary[key]
    else ""
  }

  function KindOf(score: real): MatchKind {
    if score >= 0.90 then FuzzyAuto else if score >= 0.75 then FuzzySuggested else Unmatched
  }

  /** The index of the first candidate with the greatest score. */
  ghost predicate IsBest(x: Matcher, key: string, cs: seq<Candidate>, i: nat)
    requires i < |cs|
  {
    (forall j :: 0 <= j < |cs| ==> x.similarity(key, cs[j].key) <= x.similarity(key, cs[i].key)) &&
    (forall j :: 0 <= j < i ==> x.similarity(key, cs[j].key) < x.similarity(key, cs[i].key))
  }

  function BestIndex(x: Matcher, key: string, cs: seq<Candidate>): (i: nat)
    requires cs != []
    ensures i < |cs| && IsBest(x, key, cs, i)
  {
    if |cs| == 1 then 0
    else
      var init := cs[..|cs| - 1];
      var b := BestIndex(x, key, init);
      assert IsBest(x, key, init, b);
      assert forall j :: 0 <= j < |init| ==> init[j] == cs[j];
      if x.similarity(key, cs[|cs| - 1].key) > x.similarity(key, cs[b].key) then |cs| - 1 else b
  }

  function FuzzyMatch(x: Matcher, key: string, cs: seq<Candidate>): Match {
    if !x.fuzzy || cs == [] then NO_MATCH
    else
      var c := cs[BestIndex(x, key, cs)];
      var score := x.similarity(key, c.key);
      if KindOf(score) == Unmatched then Match(Unmatched, score, "", "")
      else Match(KindOf(score), score, c.key, c.article)
  }

  /** `_match_fact_article` */
  function MatchArticle(x: Matcher, factKey: string, factArticle: string, cs: seq<Candidate>): Match {
    var key := x.normalize(if factKey != "" then factKey else factArticle);
    if key == "" then NO_MATCH
    else
      match FirstWithKey(cs, key)
      case Some(c) => Match(Exact, 1.0, c.key, c.article)
      case None =>
        var d := DictionaryKey(x, key);
        match (if d != "" then FirstWithKey(cs, x.normalize(d)) else None)
        case Some(c) => Match(if key in x.manual then Manual else Dictionary, 1.0, c.key, c.article)
        case None => FuzzyMatch(x, key, cs)
  }

  /** The search by similarity: the first of the best candidates. */
  method BestMatch(x: Matcher, key: string, cs: seq<Candidate>) returns (best: Option<Match>)
    ensures cs == [] ==> best == None
    ensures cs != [] ==>
              var c := cs[BestIndex(x, key, cs)];
              var score := x.similarity(key, c.key);
              best == Some(Match(KindOf(score), score, c.key, c.article))
  {
    best := None;
    for i := 0 to |cs|
      invariant i == 0 ==> best == None
      invariant i > 0 ==>
                  var c := cs[BestIndex(x, key, cs[..i])];
                  var score := x.similarity(key, c.key);
                  best == Some(Match(KindOf(score), score, c.key, c.article))
    {
      assert cs[..i + 1][..i] == cs[..i];
      var score := x.similarity(key, cs[i].key);
      if best == None || score > best.value.confidence {
        best := Some(Match(KindOf(score), score, cs[i].key, cs[i].article));
      }
    }
    assert cs[..|cs|] == cs;
  }

  method MatchFactArticle(x: Matcher, factKey: string, factArticle: string, cs: seq<Candidate>) returns (r: Match)
    ensures r == MatchArticle(x, factKey, factArticle, cs)
  {
    var key := x.normalize(if factKey != "" then factKey else factArticle);
    if key == "" {
      return NO_MATCH;
    }
    for i := 0 to |cs|
      invariant FirstWithKey(cs, key) == FirstWithKey(cs[i..], key)
    {
      assert cs[i..][1..] == cs[i + 1..];
      if key == cs[i].key {
        return Match(Exact, 1.0, cs[i].key, cs[i].article);
      }
    }
    var d := DictionaryKey(x, key);
    if d != "" {
      var target := x.normalize(d);
      for i := 0 to |cs|
        invariant FirstWithKey(cs, target) == FirstWithKey(cs[i..], target)
      {
        assert cs[i..][1..] == cs[i + 1..];
        if target == cs[i].key {
          return Match(if key in x.manual then Manual else Dictionary, 1.0, cs[i].key, cs[i].article);
        }
      }
    }
    if !x.fuzzy {
      return NO_MATCH;
    }
    var best := BestMatch(x, key, cs);
    if best.Some? && best.value.kind != Unmatched {
      return best.value;
    }
    r := Match(Unmatched, if best.Some? then best.value.confidence else 0.0, "", "");
  }

  /** The candidates of a CFO and extra key, in lookup order. */
  type Lookup = map<(string, string), seq<Candidate>>

  function CandidatesFor(lookup: Lookup, c: Cell): seq<Candidate> {
    if (c.cfo, c.extra) in lookup then lookup[(c.cfo, c.extra)] else []
  }

  predicate Rewrites(m: Match) {
    (m.kind == Dictionary || m.kind == FuzzyAuto || m.kind == Manual) && m.key != ""
  }

  function MatchRow(x: Matcher, lookup: Lookup, r: Row): Row {
    var m := MatchArticle(x, r.cell.article, r.article, CandidatesFor(lookup, r.cell));
    if Rewrites(m) then r.(cell := r.cell.(article := m.key)) else r
  }

  function MatchRows(x: Matcher, lookup: Lookup, rows: seq<Row>): seq<Row> {
    seq(|rows|, i requires 0 <= i < |rows| => MatchRow(x, lookup, rows[i]))
  }

  /** `_apply_article_matching` */
  method ApplyArticleMatching(frame: array<Row>, x: Matcher, lookup: Lookup)
    modifies frame
    ensures frame[..] == MatchRows(x, lookup, old(frame[..]))
  {
    ghost var before := frame[..];
    for i := 0 to frame.Length
      invariant forall k :: 0 <= k < i ==> frame[k] == MatchRow(x, lookup, before[k])
      invariant forall k :: i <= k < frame.Length ==> frame[k] == before[k]
    {
      var r := frame[i];
      var m := MatchFactArticle(x, r.cell.article, r.article, CandidatesFor(lookup, r.cell));
      if Rewrites(m) {
        frame[i] := r.(cell := r.cell.(article := m.key));
      }
    }
  }

  lemma {:induction false} FirstWithKeyIsCandidate(cs: seq<Candidate>, key: string)
    ensures FirstWithKey(cs, key).Some? ==> FirstWithKey(cs, key).value in cs && FirstWithKey(cs, key).value.key == key
  {
    if cs != [] {
      FirstWithKeyIsCandidate(cs[1..], key);
    }
  }

  /** A match names a candidate, an automatic fuzzy match scores at least 0.90, and an unmatched article leaves
      no candidate with its own key. */
  lemma MatchIsCandidate(x: Matcher, factKey: string, factArticle: string, cs: seq<Candidate>)
    ensures var m := MatchArticle(x, factKey, factArticle, cs);
            var key := x.normalize(if factKey != "" then factKey else factArticle);
            (m.kind != Unmatched ==> Candidate(m.key, m.article) in cs && key != "") &&
            (m.kind == Exact ==> m.key == key) &&
            (m.kind == FuzzyAuto ==> m.confidence == x.similarity(key, m.key) >= 0.90) &&
            (m.kind == FuzzySuggested ==> 0.75 <= m.confidence == x.similarity(key, m.key) < 0.90) &&
            (key != "" && m.kind != Exact ==> forall c :: c in cs ==> c.key != key)
  {
    var key := x.normalize(if factKey != "" then factKey else factArticle);
    FirstWithKeyIsCandidate(cs, key);
    FirstWithKeyIsCandidate(cs, x.normalize(DictionaryKey(x, key)));
    NoneWithKey(cs, key);
  }

  lemma {:induction false} NoneWithKey(cs: seq<Candidate>, key: string)
    ensures FirstWithKey(cs, key) == None ==> forall c :: c in cs ==> c.key != key
  {
    if cs != [] {
      NoneWithKey(cs[1..], key);
      assert cs == [cs[0]] + cs[1..];
    }
  }

  // ----- the two tables -----

  /** `_build_by_cfo_period` before the variance columns. */
  function CfoTable(plan: seq<Row>, monthly: seq<Row>, planOrder: seq<Cell>): seq<Joined> {
    OuterJoin(Items(GroupRows(Coarsened(plan), planOrder)), Items(monthly))
  }

  /** `_build_by_cfo_article_period` before the variance columns. */
  function ArticleTable(plan: seq<Row>, article: seq<Row>, planOrder: seq<Cell>): seq<Joined> {
    OuterJoin(Items(GroupRows(plan, planOrder)), Items(article))
  }

  function Everything(): Cell -> bool {
    (c: Cell) => true
  }

  /** One CFO in one period. */
  function InCell(cfo: string, period: string): Cell -> bool {
    (c: Cell) => c.cfo == cfo && c.period == period
  }

  /** A row of the CFO counts under t: it has a target other than "", which is t, or it has none and is t itself. */
  predicate GoesTo(m: CfoMapping, cfo: string, t: string) {
    var k := m.normalize(cfo);
    if k in m.targets && m.targets[k] != "" then t == m.targets[k] else t == cfo
  }

  /** The same for whole keys: the mapping changes the CFO and nothing else. */
  predicate KeyGoesTo(m: CfoMapping, c: Cell, d: Cell) {
    GoesTo(m, c.cfo, d.cfo) && d.article == c.article && d.extra == c.extra && d.period == c.period
  }

  lemma MapCellIs(m: CfoMapping, c: Cell, d: Cell)
    ensures MapCell(m, c) == d <==> KeyGoesTo(m, c, d)
  {
  }

  /** What mapping does to every row of a frame: the CFO goes to its target, all other fields stay. */
  lemma MapRowsExactly(m: CfoMapping, rows: seq<Row>, i: nat)
    requires i < |rows|
    ensures |MapRows(m, rows)| == |rows|
    ensures var r, now := rows[i], MapRows(m, rows)[i];
            KeyGoesTo(m, r.cell, now.cell) && now.amount == r.amount && now.ids == r.ids && now.article == r.article
  {
    MapCellIs(m, rows[i].cell, MapCell(m, rows[i].cell));
  }

  /** The keys that count under a key in p after mapping. */
  ghost function Before(m: CfoMapping, p: Cell -> bool): Cell -> bool {
    (c: Cell) => exists d :: KeyGoesTo(m, c, d) && p(d)
  }

  lemma BeforeIs(m: CfoMapping, p: Cell -> bool, c: Cell)
    ensures Before(m, p)(c) <==> p(MapCell(m, c))
  {
    MapCellIs(m, c, MapCell(m, c));
    if d :| KeyGoesTo(m, c, d) && p(d) {
      MapCellIs(m, c, d);
    }
  }

  /** The keys whose rows count under the CFO in the period. */
  function EndsIn(m: CfoMapping, cfo: string, period: string): Cell -> bool {
    (c: Cell) => GoesTo(m, c.cfo, cfo) && c.period == period
  }

  lemma EndsInIs(m: CfoMapping, rows: seq<Item>, cfo: string, period: string)
    ensures SumWhere(rows, Before(m, InCell(cfo, period))) == SumWhere(rows, EndsIn(m, cfo, period))
  {
    var p, q := Before(m, InCell(cfo, period)), EndsIn(m, cfo, period);
    forall i | 0 <= i < |rows|
      ensures q(rows[i].key) == p(rows[i].key)
    {
      BeforeIs(m, InCell(cfo, period), rows[i].key);
    }
    RekeyConserves(rows, rows, p, q);
  }

  lemma GroupedItems(rows: seq<Row>, order: seq<Cell>)
    ensures Items(GroupRows(rows, order)) == Group(Items(rows), order)
  {
  }

  lemma GroupRowsConserve(rows: seq<Row>, order: seq<Cell>, p: Cell -> bool)
    requires Enumerates(order, Items(rows))
    ensures SumWhere(Items(GroupRows(rows, order)), p) == SumWhere(Items(rows), p) &&
            UniqueKeys(Items(GroupRows(rows, order)))
  {
    GroupedItems(rows, order);
    GroupingConserves(Items(rows), order, p);
    GroupsAreUnique(Items(rows), order);
  }

  /** CFO mapping keeps the fact of every set of keys that is mapped there, the total in particular, and never
      leaves two rows with one key. */
  lemma CfoMappingConserves(m: CfoMapping, rows: seq<Row>, order: seq<Cell>, p: Cell -> bool)
    requires m.targets != map[] ==> Enumerates(order, Items(MapRows(m, rows)))
    requires UniqueKeys(Items(rows))
    ensures SumWhere(Items(CfoMapped(m, rows, order)), p) == SumWhere(Items(rows), Before(m, p))
    ensures UniqueKeys(Items(CfoMapped(m, rows, order)))
  {
    forall i | 0 <= i < |rows|
      ensures Before(m, p)(rows[i].cell) == p(MapCell(m, rows[i].cell))
    {
      BeforeIs(m, p, rows[i].cell);
    }
    RekeyConserves(Items(rows), Items(MapRows(m, rows)), Before(m, p), p);
    if m.targets != map[] {
      GroupRowsConserve(MapRows(m, rows), order, p);
    } else {
      RekeyConserves(Items(rows), Items(rows), Before(m, p), p);
    }
  }

  lemma CfoMappingKeepsTotal(m: CfoMapping, rows: seq<Row>, order: seq<Cell>)
    requires m.targets != map[] ==> Enumerates(order, Items(MapRows(m, rows)))
    requires UniqueKeys(Items(rows))
    ensures SumWhere(Items(CfoMapped(m, rows, order)), Everything()) == SumWhere(Items(rows), Everything())
  {
    CfoMappingConserves(m, rows, order, Everything());
    forall i | 0 <= i < |rows|
      ensures Before(m, Everything())(rows[i].cell)
    {
      BeforeIs(m, Everything(), rows[i].cell);
    }
    RekeyConserves(Items(rows), Items(rows), Everything(), Before(m, Everything()));
  }

  /** Article matching keeps the fact of every CFO, extra key and period, whatever it rewrites. */
  lemma MatchingConserves(x: Matcher, lookup: Lookup, rows: seq<Row>, p: Cell -> bool)
    requires forall c, a :: p(c) == p(c.(article := a))
    ensures SumWhere(Items(MatchRows(x, lookup, rows)), p) == SumWhere(Items(rows), p)
  {
    RekeyConserves(Items(rows), Items(MatchRows(x, lookup, rows)), p, p);
  }

  /** Everything between the dated fact rows and the two tables. */
  datatype Pipeline = Pipeline(mapping: CfoMapping, matcher: Matcher, lookup: Lookup,
                               months: seq<Cell>, cells: seq<Cell>, mappedMonths: seq<Cell>, mappedCells: seq<Cell>)

  function Monthly(w: Pipeline, base: seq<Row>): seq<Row> {
    CfoMapped(w.mapping, GroupRows(Coarsened(base), w.months), w.mappedMonths)
  }

  function MappedArticle(w: Pipeline, base: seq<Row>): seq<Row> {
    CfoMapped(w.mapping, GroupRows(base, w.cells), w.mappedCells)
  }

  function Article(w: Pipeline, base: seq<Row>): seq<Row> {
    MatchRows(w.matcher, w.lookup, MappedArticle(w, base))
  }

  /** The orders list the groups they are used for, in any order. */
  ghost predicate OrdersFit(w: Pipeline, base: seq<Row>) {
    Enumerates(w.months, Items(Coarsened(base))) && Enumerates(w.cells, Items(base)) &&
    (w.mapping.targets != map[] ==>
       Enumerates(w.mappedMonths, Items(MapRows(w.mapping, GroupRows(Coarsened(base), w.months)))) &&
       Enumerates(w.mappedCells, Items(MapRows(w.mapping, GroupRows(base, w.cells)))))
  }

  /** The fact of one CFO and period in the monthly frame, traced back to the base rows. */
  lemma {:induction false} MonthlyFact(w: Pipeline, base: seq<Row>, cfo: string, period: string)
    requires OrdersFit(w, base)
    ensures SumWhere(Items(Monthly(w, base)), InCell(cfo, period)) ==
            SumWhere(Items(base), EndsIn(w.mapping, cfo, period))
    ensures UniqueKeys(Items(Monthly(w, base)))
  {
    var p, q := InCell(cfo, period), Before(w.mapping, InCell(cfo, period));
    GroupRowsConserve(Coarsened(base), w.months, q);
    CfoMappingConserves(w.mapping, GroupRows(Coarsened(base), w.months), w.mappedMonths, p);
    EndsInIs(w.mapping, Items(Coarsened(base)), cfo, period);
    CoarseningKeeps(w.mapping, base, cfo, period);
  }

  lemma CoarseningKeeps(m: CfoMapping, rows: seq<Row>, cfo: string, period: string)
    ensures var q := EndsIn(m, cfo, period); SumWhere(Items(Coarsened(rows)), q) == SumWhere(Items(rows), q)
  {
    RekeyConserves(Items(rows), Items(Coarsened(rows)), EndsIn(m, cfo, period), EndsIn(m, cfo, period));
  }

  lemma {:induction false} ArticleFact(w: Pipeline, base: seq<Row>, cfo: string, period: string)
    requires OrdersFit(w, base)
    ensures SumWhere(Items(Article(w, base)), InCell(cfo, period)) ==
            SumWhere(Items(base), EndsIn(w.mapping, cfo, period))
  {
    var p, q := InCell(cfo, period), Before(w.mapping, InCell(cfo, period));
    GroupRowsConserve(base, w.cells, q);
    CfoMappingConserves(w.mapping, GroupRows(base, w.cells), w.mappedCells, p);
    MatchingConserves(w.matcher, w.lookup, MappedArticle(w, base), p);
    EndsInIs(w.mapping, Items(base), cfo, period);
  }

  /** For every CFO and period the article table's fact sums to the CFO table's fact, which is the fact of the
      source rows mapped to that CFO. */
  lemma {:induction false} TablesAgreeOnFact(w: Pipeline, base: seq<Row>, plan: seq<Row>,
                                            planMonths: seq<Cell>, planCells: seq<Cell>,
                          cfo: string, period: string)
    requires OrdersFit(w, base)
    requires Enumerates(planMonths, Items(Coarsened(plan))) && Enumerates(planCells, Items(plan))
    ensures FactSum(ArticleTable(plan, Article(w, base), planCells), InCell(cfo, period)) ==
            FactSum(CfoTable(plan, Monthly(w, base), planMonths), InCell(cfo, period)) ==
            SumWhere(Items(base), EndsIn(w.mapping, cfo, period))
  {
    var p := InCell(cfo, period);
    GroupRowsConserve(Coarsened(plan), planMonths, p);
    GroupRowsConserve(plan, planCells, p);
    JoinKeepsFact(Items(GroupRows(Coarsened(plan), planMonths)), Items(Monthly(w, base)), p);
    JoinKeepsFact(Items(GroupRows(plan, planCells)), Items(Article(w, base)), p);
    MonthlyFact(w, base, cfo, period);
    ArticleFact(w, base, cfo, period);
  }

  /** The CFO table always keeps the plan of every CFO and period. */
  lemma CfoTableKeepsPlan(w: Pipeline, base: seq<Row>, plan: seq<Row>, planMonths: seq<Cell>,
                          cfo: string, period: string)
    requires OrdersFit(w, base) && Enumerates(planMonths, Items(Coarsened(plan)))
    ensures PlanSum(CfoTable(plan, Monthly(w, base), planMonths), InCell(cfo, period)) ==
            SumWhere(Items(plan), InCell(cfo, period))
  {
    var p := InCell(cfo, period);
    var grouped, facts := Items(GroupRows(Coarsened(plan), planMonths)), Items(Monthly(w, base));
    GroupRowsConserve(Coarsened(plan), planMonths, p);
    MonthlyFact(w, base, cfo, period);
    forall i | 0 <= i < |grouped|
      ensures |Matches(facts, grouped[i].key)| <= 1
    {
      UniqueMeetOnce(facts, grouped[i].key);
    }
    JoinKeepsPlan(grouped, facts, p);
    RekeyConserves(Items(plan), Items(Coarsened(plan)), p, p);
  }

  /** The article table keeps the plan of every set of keys when no two fact rows end on one key. */
  lemma ArticleTableKeepsPlan(plan: seq<Row>, article: seq<Row>, planCells: seq<Cell>, p: Cell -> bool)
    requires Enumerates(planCells, Items(plan)) && UniqueKeys(Items(article))
    ensures PlanSum(ArticleTable(plan, article, planCells), p) == SumWhere(Items(plan), p)
  {
    var grouped, facts := Items(GroupRows(plan, planCells)), Items(article);
    GroupRowsConserve(plan, planCells, p);
    forall i | 0 <= i < |grouped|
      ensures |Matches(facts, grouped[i].key)| <= 1
    {
      UniqueMeetOnce(facts, grouped[i].key);
    }
    JoinKeepsPlan(grouped, facts, p);
  }

  /** Whatever the signs of the amounts, the article table keeps the plan of every set of keys exactly when no plan
      group with a total other than zero is met by two fact rows. */
  lemma {:induction false} ArticleTableKeepsPlanExactly(plan: seq<Row>, article: seq<Row>, planCells: seq<Cell>)
    requires Enumerates(planCells, Items(plan))
    ensures (forall p :: PlanSum(ArticleTable(plan, article, planCells), p) == SumWhere(Items(plan), p)) <==>
            Harmless(Items(GroupRows(plan, planCells)), Items(article))
  {
    var grouped, facts := Items(GroupRows(plan, planCells)), Items(article);
    GroupedItems(plan, planCells);
    GroupsAreUnique(Items(plan), planCells);
    JoinKeepsPlanExactly(grouped, facts);
    forall p
      ensures SumWhere(grouped, p) == SumWhere(Items(plan), p)
    {
      GroupRowsConserve(plan, planCells, p);
    }
    if forall p :: PlanSum(ArticleTable(plan, article, planCells), p) == SumWhere(Items(plan), p) {
      forall p
        ensures PlanSum(OuterJoin(grouped, facts), p) == SumWhere(grouped, p)
      {
        assert PlanSum(ArticleTable(plan, article, planCells), p) == SumWhere(Items(plan), p);
      }
    }
  }

  /** Without negative group totals the plan total alone survives under exactly that condition. */
  lemma {:induction false} ArticleTableKeepsTotalExactly(plan: seq<Row>, article: seq<Row>, planCells: seq<Cell>)
    requires Enumerates(planCells, Items(plan))
    requires forall k :: k in planCells ==> SumAt(Items(plan), k) >= 0.0
    ensures PlanSum(ArticleTable(plan, article, planCells), Everything()) == SumWhere(Items(plan), Everything()) <==>
            Harmless(Items(GroupRows(plan, planCells)), Items(article))
  {
    GroupRowsConserve(plan, planCells, Everything());
    JoinKeepsTotalExactly(Items(GroupRows(plan, planCells)), Items(article), Everything());
  }

  lemma OneGroup(r: Row)
    ensures Items([r]) == Items(GroupRows([r], [r.cell])) == [Item(r.cell, r.amount)]
  {
    SumOfOne(Item(r.cell, r.amount), Everything());
    assert Items([r]) == [Item(r.cell, r.amount)];
    assert Items(GroupRows([r], [r.cell])) == [Item(r.cell, SumAt(Items([r]), r.cell))];
  }

  /** A row on the key "a" and one that the manual match takes there. */
  lemma BothMatch(ids: IdCell)
    ensures var k := Cell("f", "a", "", "1");
            var article := [Row(k, 30.0, ids, "a"), Row(Cell("f", "b", "", "1"), 20.0, ids, "b")];
            var x := Matcher(s => s, map["b" := "a"], map[], (s, t) => 0.0, false);
            var matched := MatchRows(x, map[("f", "") := [Candidate("a", "a")]], article);
            Items(matched) == [Item(k, 30.0), Item(k, 20.0)]
  {
    var k := Cell("f", "a", "", "1");
    var b := Row(Cell("f", "b", "", "1"), 20.0, ids, "b");
    var x := Matcher(s => s, map["b" := "a"], map[], (s, t) => 0.0, false);
    var lookup := map[("f", "") := [Candidate("a", "a")]];
    assert CandidatesFor(lookup, k) == CandidatesFor(lookup, b.cell) == [Candidate("a", "a")];
    assert FirstWithKey([Candidate("a", "a")], "a") == Some(Candidate("a", "a"));
    assert MatchRow(x, lookup, Row(k, 30.0, ids, "a")).cell == k;
    assert "b" != "a";
    assert FirstWithKey([Candidate("a", "a")], "b") == None;
    assert MatchArticle(x, "b", "b", [Candidate("a", "a")]) == Match(Manual, 1.0, "a", "a");
    assert MatchRow(x, lookup, b).cell == k;
  }

  /** The failing family in one input: an article spelled differently and matched to an article that also has a
      row of its own makes the plan of 100 count twice. */
  lemma MatchingCanDoubleThePlan(ids: IdCell)
    ensures var plan := [Row(Cell("f", "a", "", "1"), 100.0, ids, "a")];
            var article := [Row(Cell("f", "a", "", "1"), 30.0, ids, "a"), Row(Cell("f", "b", "", "1"), 20.0, ids, "b")];
            var x := Matcher(s => s, map["b" := "a"], map[], (s, t) => 0.0, false);
            var matched := MatchRows(x, map[("f", "") := [Candidate("a", "a")]], article);
            UniqueKeys(Items(article)) && SumWhere(Items(plan), Everything()) == 100.0 &&
            PlanSum(ArticleTable(plan, matched, [plan[0].cell]), Everything()) == 200.0
  {
    var k := Cell("f", "a", "", "1");
    var plan := [Row(k, 100.0, ids, "a")];
    BothMatch(ids);
    SumOfOne(Item(k, 100.0), Everything());
    OneGroup(plan[0]);
    JoinOfTwo(Item(k, 100.0), 30.0, 20.0, Everything());
  }

  lemma SumOfOne(r: Item, p: Cell -> bool)
    requires p(r.key)
    ensures SumWhere([r], p) == r.amount == SumAt([r], r.key)
  {
  }

  lemma JoinOfTwo(r: Item, s: real, t: real, p: Cell -> bool)
    requires p(r.key)
    ensures PlanSum(OuterJoin([r], [Item(r.key, s), Item(r.key, t)]), p) == r.amount + r.amount
  {
    var fact := [Item(r.key, s), Item(r.key, t)];
    JoinWeighsPlan([r], fact, p);
    var last := [Item(r.key, t)];
    assert fact[1..] == last && last[1..] == [];
    assert Matches(last, r.key) == last;
    assert Matches(fact, r.key) == fact;
    assert Times(2, r.amount) == r.amount + Times(1, r.amount) && Times(1, r.amount) == r.amount + Times(0, r.amount);
  }

  // ----- tracing rows back -----

  /** The readable ids of a cell. */
  function Ids(c: IdCell): seq<int> {
    Values(Atoms(c))
  }

  /** The id stands in a row with this key. */
  ghost predicate AtKey(rows: seq<Row>, k: Cell, x: int) {
    exists i :: 0 <= i < |rows| && rows[i].cell == k && x in Ids(rows[i].ids)
  }

  /** The id stands in a row that the mapping takes to this key. */
  ghost predicate MappedTo(m: CfoMapping, rows: seq<Row>, k: Cell, x: int) {
    exists i :: 0 <= i < |rows| && KeyGoesTo(m, rows[i].cell, k) && x in Ids(rows[i].ids)
  }

  lemma {:induction false} IdsAtKey(rows: seq<Row>, k: Cell, x: int)
    ensures x in AllIds(IdsAt(rows, k)) <==> AtKey(rows, k, x)
  {
    if rows != [] {
      var rest := rows[1..];
      assert rows == [rows[0]] + rest;
      IdsAtKey(rest, k, x);
      if rows[0].cell == k {
        assert IdsAt(rows, k)[1..] == IdsAt(rest, k);
      } else {
        assert IdsAt(rows, k) == IdsAt(rest, k);
      }
      AtKeyCons(rows, k, x);
    }
  }

  lemma AtKeyCons(rows: seq<Row>, k: Cell, x: int)
    requires rows != []
    ensures AtKey(rows, k, x) <==> (rows[0].cell == k && x in Ids(rows[0].ids)) || AtKey(rows[1..], k, x)
  {
    if AtKey(rows[1..], k, x) {
      var i :| 0 <= i < |rows[1..]| && rows[1..][i].cell == k && x in Ids(rows[1..][i].ids);
      assert rows[i + 1] == rows[1..][i];
    }
    if AtKey(rows, k, x) {
      var i :| 0 <= i < |rows| && rows[i].cell == k && x in Ids(rows[i].ids);
      assert i > 0 ==> rows[1..][i - 1] == rows[i];
    }
  }

  /** A group lists the ids of its rows, each once. */
  lemma GroupIds(rows: seq<Row>, order: seq<Cell>, j: nat, x: int)
    requires j < |order|
    ensures var r := GroupRows(rows, order)[j];
            r.cell == order[j] && NoDuplicates(Ids(r.ids)) && (x in Ids(r.ids) <==> AtKey(rows, r.cell, x))
  {
    CollectedReads(IdsAt(rows, order[j]));
    DedupeFacts(AllIds(IdsAt(rows, order[j])));
    IdsAtKey(rows, order[j], x);
  }

  /** Mapping the groups reaches the same rows as mapping the rows themselves. */
  lemma MappedGroups(m: CfoMapping, rows: seq<Row>, order: seq<Cell>, k: Cell, x: int)
    requires Enumerates(order, Items(rows))
    ensures AtKey(MapRows(m, GroupRows(rows, order)), k, x) <==> MappedTo(m, rows, k, x)
  {
    var groups := GroupRows(rows, order);
    var mapped := MapRows(m, groups);
    if AtKey(mapped, k, x) {
      var j :| 0 <= j < |mapped| && mapped[j].cell == k && x in Ids(mapped[j].ids);
      GroupIds(rows, order, j, x);
      var i :| 0 <= i < |rows| && rows[i].cell == order[j] && x in Ids(rows[i].ids);
      MapCellIs(m, rows[i].cell, k);
    }
    if MappedTo(m, rows, k, x) {
      var i :| 0 <= i < |rows| && KeyGoesTo(m, rows[i].cell, k) && x in Ids(rows[i].ids);
      MapCellIs(m, rows[i].cell, k);
      assert Items(rows)[i].key in order;
      var j :| 0 <= j < |order| && order[j] == rows[i].cell;
      GroupIds(rows, order, j, x);
      assert AtKey(rows, order[j], x);
      assert mapped[j].cell == k && x in Ids(mapped[j].ids);
    }
  }

  lemma StaysAtKey(m: CfoMapping, rows: seq<Row>, k: Cell, x: int)
    requires m.targets == map[]
    ensures MappedTo(m, rows, k, x) <==> AtKey(rows, k, x)
  {
    forall c
      ensures KeyGoesTo(m, c, k) <==> c == k
    {
      MapCellIs(m, c, k);
    }
  }

  /** The ids of a row after CFO mapping are those of exactly the source rows mapped to its key, each once. */
  lemma MappedIds(m: CfoMapping, rows: seq<Row>, order: seq<Cell>, mappedOrder: seq<Cell>, j: nat, x: int)
    requires Enumerates(order, Items(rows)) && j < |CfoMapped(m, GroupRows(rows, order), mappedOrder)|
    ensures var r := CfoMapped(m, GroupRows(rows, order), mappedOrder)[j];
            NoDuplicates(Ids(r.ids)) && (x in Ids(r.ids) <==> MappedTo(m, rows, r.cell, x))
  {
    if m.targets == map[] {
      GroupIds(rows, order, j, x);
      StaysAtKey(m, rows, order[j], x);
    } else {
      GroupIds(MapRows(m, GroupRows(rows, order)), mappedOrder, j, x);
      MappedGroups(m, rows, order, mappedOrder[j], x);
    }
  }

  /** The ids of a monthly row read back as exactly the ids of the base rows whose CFO and period end there. */
  lemma MonthlyIds(w: Pipeline, base: seq<Row>, j: nat, x: int)
    requires OrdersFit(w, base) && j < |Monthly(w, base)|
    ensures var r := Monthly(w, base)[j];
            r.cell.article == r.cell.extra == "" && NoDuplicates(Ids(r.ids)) &&
            (x in Ids(r.ids) <==>
             exists i :: 0 <= i < |base| && EndsIn(w.mapping, r.cell.cfo, r.cell.period)(base[i].cell) &&
                         x in Ids(base[i].ids))
  {
    MappedIds(w.mapping, Coarsened(base), w.months, w.mappedMonths, j, x);
    MonthlyIsCoarse(w, base, j);
    CoarsenedTo(w.mapping, base, Monthly(w, base)[j].cell, x);
  }

  /** The monthly frame has no article and no extra key. */
  lemma MonthlyIsCoarse(w: Pipeline, base: seq<Row>, j: nat)
    requires OrdersFit(w, base) && j < |Monthly(w, base)|
    ensures Monthly(w, base)[j].cell.article == Monthly(w, base)[j].cell.extra == ""
  {
    var groups := GroupRows(Coarsened(base), w.months);
    forall g: nat | g < |groups|
      ensures groups[g].cell.article == groups[g].cell.extra == ""
    {
      var i :| 0 <= i < |base| && Items(Coarsened(base))[i].key == w.months[g];
    }
    if w.mapping.targets != map[] {
      var mapped := MapRows(w.mapping, groups);
      var g :| 0 <= g < |groups| && Items(mapped)[g].key == w.mappedMonths[j];
      MapRowsExactly(w.mapping, groups, g);
    }
  }

  lemma CoarsenedTo(m: CfoMapping, base: seq<Row>, cell: Cell, x: int)
    requires cell.article == cell.extra == ""
    ensures MappedTo(m, Coarsened(base), cell, x) <==>
            exists i :: 0 <= i < |base| && EndsIn(m, cell.cfo, cell.period)(base[i].cell) && x in Ids(base[i].ids)
  {
    var rows, ends := Coarsened(base), EndsIn(m, cell.cfo, cell.period);
    if MappedTo(m, rows, cell, x) {
      var i :| 0 <= i < |rows| && KeyGoesTo(m, rows[i].cell, cell) && x in Ids(rows[i].ids);
      assert ends(base[i].cell) && x in Ids(base[i].ids);
    }
    if i: nat :| i < |base| && ends(base[i].cell) && x in Ids(base[i].ids) {
      assert KeyGoesTo(m, rows[i].cell, cell) && x in Ids(rows[i].ids);
    }
  }

  /** The ids of an article row read back as exactly the ids of the base rows whose key was mapped to the row's key
      before its article was matched; matching changes the article key and nothing else. */
  lemma ArticleIds(w: Pipeline, base: seq<Row>, j: nat, x: int)
    requires OrdersFit(w, base) && j < |Article(w, base)|
    ensures var r, was := Article(w, base)[j], MappedArticle(w, base)[j];
            r == was.(cell := was.cell.(article := r.cell.article)) && NoDuplicates(Ids(r.ids)) &&
            (x in Ids(r.ids) <==>
             exists i :: 0 <= i < |base| && KeyGoesTo(w.mapping, base[i].cell, was.cell) && x in Ids(base[i].ids))
  {
    MappedIds(w.mapping, base, w.cells, w.mappedCells, j, x);
  }

  // ----- the variance columns -----

  datatype VarianceRow = VarianceRow(key: Cell, plan: real, fact: real, variance: real, percent: Option<real>)

  /** `_with_variance` */
  function WithVariance(js: seq<Joined>): seq<VarianceRow> {
    seq(|js|, i requires 0 <= i < |js| =>
      VarianceRow(js[i].key, js[i].plan, js[i].fact, js[i].fact - js[i].plan,
                  if js[i].plan == 0.0 then None else Some((js[i].fact - js[i].plan) / js[i].plan)))
  }

  function VarianceSum(vs: seq<VarianceRow>, p: Cell -> bool): real {
    if vs == [] then 0.0 else Only(p(vs[0].key), vs[0].variance) + VarianceSum(vs[1..], p)
  }

  /** Variances add up to fact less plan. */
  lemma {:induction false} VariancesAddUp(js: seq<Joined>, p: Cell -> bool)
    ensures VarianceSum(WithVariance(js), p) == FactSum(js, p) - PlanSum(js, p)
  {
    if js != [] {
      VariancesAddUp(js[1..], p);
      assert WithVariance(js)[1..] == WithVariance(js[1..]);
    }
  }
}
