/** Ancestry in a graph of parent links: the depth-first walk, what it lists, and when its order is topological. */
module Lineage {
  import opened Lists

  /** The stored ids with their parent ids; a parent id need not be stored. */
  type Graph = map<string, seq<string>>

  datatype Visit = Visit(visited: set<string>, chain: seq<string>)

  /** The nested `_walk` of `get_lineage`: what it adds to the visited set and to the chain. */
  function Walk(g: Graph, visited: set<string>, id: string): (r: Visit)
    ensures visited <= r.visited
    decreases g.Keys - visited, 0
  {
    if id in visited then Visit(visited, [])
    else if id !in g then Visit(visited + {id}, [])
    else
      var r := WalkAll(g, visited + {id}, g[id]);
      Visit(r.visited, r.chain + [id])
  }

  function WalkAll(g: Graph, visited: set<string>, ids: seq<string>): (r: Visit)
    ensures visited <= r.visited
    decreases g.Keys - visited, 1 + |ids|
  {
    if ids == [] then Visit(visited, [])
    else
      var first := Walk(g, visited, ids[0]);
      var rest := WalkAll(g, first.visited, ids[1..]);
      Visit(rest.visited, first.chain + rest.chain)
  }

  /** The walk in progress: its chain so far, and what the remaining walk adds. */
  predicate Continues(all: Visit, sofar: seq<string>, rest: Visit) {
    all.visited == rest.visited && all.chain == sofar + rest.chain
  }

  lemma WalkOn(g: Graph, visited: set<string>, ids: seq<string>, i: nat, all: Visit, sofar: seq<string>)
    requires i < |ids| && Continues(all, sofar, WalkAll(g, visited, ids[i..]))
    ensures var step := Walk(g, visited, ids[i]);
            Continues(all, sofar + step.chain, WalkAll(g, step.visited, ids[i + 1..]))
  {
    assert ids[i..][0] == ids[i] && ids[i..][1..] == ids[i + 1..];
    var step := Walk(g, visited, ids[i]);
    AssocSeq(sofar, step.chain, WalkAll(g, step.visited, ids[i + 1..]).chain);
  }

  /** The ids of `get_lineage(id)`. */
  function LineageIds(g: Graph, id: string): seq<string> {
    Walk(g, {}, id).chain
  }

  // ----- reachability -----

  /** Each id on the path is a parent of the one before it. */
  ghost predicate IsPath(g: Graph, p: seq<string>) {
    p != [] && forall i :: 0 <= i < |p| - 1 ==> p[i] in g && p[i + 1] in g[p[i]]
  }

  ghost predicate PathFrom(g: Graph, a: string, b: string, p: seq<string>) {
    IsPath(g, p) && p[0] == a && p[|p| - 1] == b
  }

  ghost predicate Reaches(g: Graph, a: string, b: string) {
    exists p :: PathFrom(g, a, b, p)
  }

  /** Reachable in at least one step. */
  ghost predicate ReachesStrictly(g: Graph, a: string, b: string) {
    exists p :: PathFrom(g, a, b, p) && |p| >= 2
  }

  lemma ReachesSelf(g: Graph, a: string)
    ensures Reaches(g, a, a)
  {
    assert PathFrom(g, a, a, [a]);
  }

  lemma EdgeReaches(g: Graph, a: string, b: string)
    requires a in g && b in g[a]
    ensures ReachesStrictly(g, a, b) && Reaches(g, a, b)
  {
    assert PathFrom(g, a, b, [a, b]);
  }

  lemma JoinPaths(g: Graph, a: string, b: string, c: string, p: seq<string>, q: seq<string>) returns (r: seq<string>)
    requires PathFrom(g, a, b, p) && PathFrom(g, b, c, q)
    ensures PathFrom(g, a, c, r) && |r| == |p| + |q| - 1
  {
    r := p + q[1..];
    forall i | 0 <= i < |r| - 1
      ensures r[i] in g && r[i + 1] in g[r[i]]
    {
      if i >= |p| - 1 {
        assert r[i] == q[i - (|p| - 1)] && r[i + 1] == q[i + 1 - (|p| - 1)];
      }
    }
  }

  lemma ReachesTrans(g: Graph, a: string, b: string, c: string)
    requires Reaches(g, a, b) && Reaches(g, b, c)
    ensures Reaches(g, a, c)
    ensures ReachesStrictly(g, a, b) || ReachesStrictly(g, b, c) ==> ReachesStrictly(g, a, c)
  {
    var p :| PathFrom(g, a, b, p) && (ReachesStrictly(g, a, b) ==> |p| >= 2);
    var q :| PathFrom(g, b, c, q) && (ReachesStrictly(g, b, c) ==> |q| >= 2);
    var r := JoinPaths(g, a, b, c, p, q);
  }

  lemma StrictIsReach(g: Graph, a: string, b: string)
    requires ReachesStrictly(g, a, b)
    ensures Reaches(g, a, b)
  {
  }

  // ----- what the walk lists -----

  /** The new ids are exactly accounted for: stored ones are listed once, and all parents of stored ones were
      visited. */
  ghost predicate Accounted(g: Graph, visited: set<string>, r: Visit) {
    visited <= r.visited && NoDuplicates(r.chain) &&
    (forall x :: x in r.chain <==> x in r.visited - visited && x in g) &&
    (forall x, p :: x in r.visited - visited && x in g && p in g[x] ==> p in r.visited)
  }

  ghost predicate ReachedFromSome(g: Graph, ids: seq<string>, x: string) {
    exists p :: p in ids && Reaches(g, p, x)
  }

  lemma {:induction false} WalkAccounts(g: Graph, visited: set<string>, id: string)
    ensures var r := Walk(g, visited, id);
            Accounted(g, visited, r) && id in r.visited && forall x :: x in r.visited - visited ==> Reaches(g, id, x)
    decreases g.Keys - visited, 0
  {
    ReachesSelf(g, id);
    if id !in visited && id in g {
      var sub := WalkAll(g, visited + {id}, g[id]);
      var r := Walk(g, visited, id);
      WalkAllAccounts(g, visited + {id}, g[id]);
      assert forall x :: x in r.chain <==> x in sub.chain || x == id;
      forall x | x in r.visited - visited
        ensures Reaches(g, id, x)
      {
        if x != id {
          assert x in sub.visited - (visited + {id});
          var p :| p in g[id] && Reaches(g, p, x);
          EdgeReaches(g, id, p);
          ReachesTrans(g, id, p, x);
        }
      }
    }
  }

  lemma {:induction false} WalkAllAccounts(g: Graph, visited: set<string>, ids: seq<string>)
    ensures var r := WalkAll(g, visited, ids);
            Accounted(g, visited, r) && (forall x :: x in ids ==> x in r.visited) &&
            forall x :: x in r.visited - visited ==> ReachedFromSome(g, ids, x)
    decreases g.Keys - visited, 1 + |ids|
  {
    if ids != [] {
      var first := Walk(g, visited, ids[0]);
      var rest := WalkAll(g, first.visited, ids[1..]);
      WalkAccounts(g, visited, ids[0]);
      WalkAllAccounts(g, first.visited, ids[1..]);
      ChainsJoin(g, visited, first, rest);
      forall x | x in rest.visited - visited
        ensures ReachedFromSome(g, ids, x)
      {
        if x in first.visited {
          assert x in first.visited - visited;
          assert ids[0] in ids && Reaches(g, ids[0], x);
        } else {
          assert x in rest.visited - first.visited;
          var p :| p in ids[1..] && Reaches(g, p, x);
          assert p in ids;
        }
      }
    }
  }

  lemma ChainsJoin(g: Graph, visited: set<string>, first: Visit, rest: Visit)
    requires Accounted(g, visited, first) && Accounted(g, first.visited, rest)
    ensures Accounted(g, visited, Visit(rest.visited, first.chain + rest.chain))
  {
    var c := first.chain + rest.chain;
    assert forall x :: x in c <==> x in first.chain || x in rest.chain;
    forall i, j | 0 <= i < j < |c|
      ensures c[i] != c[j]
    {
      if i < |first.chain| <= j {
        assert c[i] in first.chain && c[j] in rest.chain;
      }
    }
  }

  lemma {:induction false} PathStaysVisited(g: Graph, visited: set<string>, p: seq<string>)
    requires IsPath(g, p) && p[0] in visited
    requires forall x, q :: x in visited && x in g && q in g[x] ==> q in visited
    ensures p[|p| - 1] in visited
    decreases |p|
  {
    if |p| > 1 {
      assert p[0] in g && p[1] in g[p[0]];
      var q := p[1..];
      forall i | 0 <= i < |q| - 1
        ensures q[i] in g && q[i + 1] in g[q[i]]
      {
        assert p[i + 1] in g;
      }
      PathStaysVisited(g, visited, q);
    }
  }

  /** On every parent graph, cyclic or not, the lineage lists exactly the stored ids reachable through parents,
      each once. */
  lemma LineageListsAncestors(g: Graph, id: string)
    ensures NoDuplicates(LineageIds(g, id))
    ensures forall x :: x in LineageIds(g, id) <==> x in g && Reaches(g, id, x)
  {
    var r := Walk(g, {}, id);
    WalkAccounts(g, {}, id);
    forall x | x in g && Reaches(g, id, x)
      ensures x in r.chain
    {
      var p :| PathFrom(g, id, x, p);
      PathStaysVisited(g, r.visited, p);
    }
  }

  // ----- the order -----

  /** Each stored parent stands before its child in the chain, or was done before. */
  ghost predicate ParentsBefore(g: Graph, done: set<string>, chain: seq<string>) {
    forall i, p :: 0 <= i < |chain| && chain[i] in g && p in g[chain[i]] && p in g ==> p in done || p in chain[..i]
  }

  ghost predicate OnCycle(g: Graph, x: string) {
    ReachesStrictly(g, x, x)
  }

  ghost predicate NoCycleFrom(g: Graph, id: string) {
    forall x :: Reaches(g, id, x) ==> !OnCycle(g, x)
  }

  /** The ids still being walked reach the next one. */
  ghost predicate OnStack(g: Graph, stack: set<string>, id: string) {
    forall y :: y in stack ==> ReachesStrictly(g, y, id)
  }

  lemma {:induction false} WalkOrders(g: Graph, top: string, visited: set<string>, stack: set<string>, id: string)
    requires NoCycleFrom(g, top) && Reaches(g, top, id) && stack <= visited && OnStack(g, stack, id)
    ensures ParentsBefore(g, visited - stack, Walk(g, visited, id).chain)
    decreases g.Keys - visited, 0
  {
    if id !in visited && id in g {
      var sub := WalkAll(g, visited + {id}, g[id]);
      var c := sub.chain + [id];
      forall p | p in g[id]
        ensures Reaches(g, top, p) && OnStack(g, stack + {id}, p)
      {
        EdgeReaches(g, id, p);
        ReachesTrans(g, top, id, p);
        forall y | y in stack
          ensures ReachesStrictly(g, y, p)
        {
          StrictIsReach(g, y, id);
          ReachesTrans(g, y, id, p);
        }
      }
      WalkAllOrders(g, top, visited + {id}, stack + {id}, g[id]);
      WalkAllAccounts(g, visited + {id}, g[id]);
      assert (visited + {id}) - (stack + {id}) == visited - stack;
      forall p | p in g[id] && p in g
        ensures p in visited - stack || p in sub.chain
      {
        EdgeReaches(g, id, p);
        ReachesTrans(g, top, id, p);
        if p == id || p in stack {
          if p in stack {
            StrictIsReach(g, p, id);
            ReachesTrans(g, p, id, p);
          }
          assert false;
        }
      }
      assert c[..|sub.chain|] == sub.chain;
      forall i, p | 0 <= i < |c| && c[i] in g && p in g[c[i]] && p in g
        ensures p in visited - stack || p in c[..i]
      {
        if i < |sub.chain| {
          assert c[..i] == sub.chain[..i] && c[i] == sub.chain[i];
        }
      }
    }
  }

  lemma {:induction false} WalkAllOrders(g: Graph, top: string, visited: set<string>, stack: set<string>,
      ids: seq<string>)
    requires NoCycleFrom(g, top) && stack <= visited
    requires forall p :: p in ids ==> Reaches(g, top, p) && OnStack(g, stack, p)
    ensures ParentsBefore(g, visited - stack, WalkAll(g, visited, ids).chain)
    decreases g.Keys - visited, 1 + |ids|
  {
    if ids != [] {
      var first := Walk(g, visited, ids[0]);
      var rest := WalkAll(g, first.visited, ids[1..]);
      WalkOrders(g, top, visited, stack, ids[0]);
      WalkAccounts(g, visited, ids[0]);
      WalkAllOrders(g, top, first.visited, stack, ids[1..]);
      OrdersJoin(g, visited, stack, first, rest.chain);
    }
  }

  lemma OrdersJoin(g: Graph, visited: set<string>, stack: set<string>, first: Visit, more: seq<string>)
    requires stack <= visited && Accounted(g, visited, first)
    requires ParentsBefore(g, visited - stack, first.chain) && ParentsBefore(g, first.visited - stack, more)
    ensures ParentsBefore(g, visited - stack, first.chain + more)
  {
    var c, n := first.chain + more, |first.chain|;
    forall i, p | 0 <= i < |c| && c[i] in g && p in g[c[i]] && p in g
      ensures p in visited - stack || p in c[..i]
    {
      if i < n {
        assert c[..i] == first.chain[..i];
      } else {
        assert c[i] == more[i - n] && c[..i] == first.chain + more[..i - n];
      }
    }
  }

  /** Parents first: the list is in topological order. */
  ghost predicate Topological(g: Graph, chain: seq<string>) {
    ParentsBefore(g, {}, chain)
  }

  lemma {:induction false} OrderBoundsPath(g: Graph, chain: seq<string>, p: seq<string>, at: nat) returns (k: nat)
    requires Topological(g, chain) && NoDuplicates(chain) && IsPath(g, p)
    requires forall x :: x in p ==> x in g
    requires at < |chain| && chain[at] == p[0]
    ensures k + |p| - 1 <= at && chain[k] == p[|p| - 1]
    decreases |p|
  {
    k := at;
    if |p| > 1 {
      assert p[0] in g && p[1] in g[p[0]] && p[1] in p;
      assert p[1] in chain[..at];
      var j :| 0 <= j < at && chain[j] == p[1];
      var q := p[1..];
      forall i | 0 <= i < |q| - 1
        ensures q[i] in g && q[i + 1] in g[q[i]]
      {
        assert p[i + 1] in g;
      }
      k := OrderBoundsPath(g, chain, q, j);
    }
  }

  lemma OrderExcludesCycles(g: Graph, id: string, x: string)
    requires Topological(g, LineageIds(g, id)) && Reaches(g, id, x)
    ensures !OnCycle(g, x)
  {
    if OnCycle(g, x) {
      var chain := LineageIds(g, id);
      LineageListsAncestors(g, id);
      var p :| PathFrom(g, x, x, p) && |p| >= 2;
      assert p[0] in g;
      forall y | y in p
        ensures y in g
      {
        var i :| 0 <= i < |p| && p[i] == y;
        if i == |p| - 1 {
          assert y == p[0];
        }
      }
      var at :| 0 <= at < |chain| && chain[at] == x;
      var k := OrderBoundsPath(g, chain, p, at);
      assert false;
    }
  }

  /** The lineage is in topological order exactly when no ancestor lies on a cycle. */
  lemma TopologicalExactlyWithoutCycles(g: Graph, id: string)
    ensures Topological(g, LineageIds(g, id)) <==> NoCycleFrom(g, id)
  {
    if NoCycleFrom(g, id) {
      ReachesSelf(g, id);
      var none: set<string> := {};
      WalkOrders(g, id, none, none, id);
      assert none - none == none;
    }
    if Topological(g, LineageIds(g, id)) {
      forall x | Reaches(g, id, x)
        ensures !OnCycle(g, x)
      {
        OrderExcludesCycles(g, id, x);
      }
    }
  }

  // ----- growing graphs -----

  ghost predicate Acyclic(g: Graph) {
    forall x :: !OnCycle(g, x)
  }

  /** Every parent is stored. */
  ghost predicate Closed(g: Graph) {
    forall x, p :: x in g && p in g[x] ==> p in g
  }

  /** A new id whose parents are all stored cannot close a cycle. */
  lemma AddedNodeKeepsAcyclic(g: Graph, id: string, parents: seq<string>)
    requires Acyclic(g) && Closed(g) && id !in g && forall p :: p in parents ==> p in g
    ensures Acyclic(g[id := parents]) && Closed(g[id := parents])
  {
    var h := g[id := parents];
    forall x
      ensures !OnCycle(h, x)
    {
      if OnCycle(h, x) {
        var p :| PathFrom(h, x, x, p) && |p| >= 2;
        forall i | 0 <= i < |p|
          ensures p[i] != id
        {
          var k := if i == 0 then |p| - 1 else i;
          assert p[k] == p[i];
          assert p[k - 1] in h && p[k] in h[p[k - 1]];
        }
        forall i | 0 <= i < |p| - 1
          ensures p[i] in g && p[i + 1] in g[p[i]]
        {
          assert p[i] in h;
        }
        assert PathFrom(g, x, x, p);
        assert OnCycle(g, x);
        assert false;
      }
    }
  }

  // ----- a cyclic graph -----

  const TWO_CYCLE: Graph := map["a" := ["b"], "b" := ["a"]]

  lemma CycleLineage()
    ensures LineageIds(TWO_CYCLE, "a") == ["b", "a"] && !Topological(TWO_CYCLE, ["b", "a"])
  {
    var g := TWO_CYCLE;
    assert "a" in g && "b" in g && "a" != "b";
    assert Walk(g, {"a", "b"}, "a") == Visit({"a", "b"}, []);
    assert ["a"][1..] == [] && ["b"][1..] == [];
    assert WalkAll(g, {"a", "b"}, ["a"]) == Visit({"a", "b"}, []);
    assert {"a"} + {"b"} == {"a", "b"};
    assert Walk(g, {"a"}, "b") == Visit({"a", "b"}, ["b"]);
    assert WalkAll(g, {"a"}, ["b"]) == Visit({"a", "b"}, ["b"]);
    var none: set<string> := {};
    assert none + {"a"} == {"a"} && ["b"] + ["a"] == ["b", "a"];
    assert Walk(g, {}, "a") == Visit({"a", "b"}, ["b", "a"]);
    assert ["b", "a"][0] == "b" && "a" in g["b"];
  }
}
