/** The session's artifact store: versions per name, parent links, lineage. */
module ExecutionStore {
  import opened Text
  import opened Lists
  import opened Lineage
  import opened Options

  class ExecutionArtifact {
    const id: string
    var sessionId: string
    var name: string
    var parentIds: seq<string>
    var version: int
    /** `meta["lineage"]`: source names and source ids, each as a list. */
    var sourceNames: seq<string>
    var sourceIds: seq<string>

    constructor (id: string, name: string, parentIds: seq<string>, sourceNames: seq<string>, sourceIds: seq<string>)
      ensures this.id == id && this.name == name && this.parentIds == parentIds && version == 1
      ensures this.sourceNames == sourceNames && this.sourceIds == sourceIds
    {
      this.id, this.name, this.parentIds := id, name, parentIds;
      this.sourceNames, this.sourceIds, sessionId, version := sourceNames, sourceIds, "", 1;
    }
  }

  // ----- the store as a value -----

  /** What lineage and versioning depend on: the parent graph, the id of the latest artifact of each name,
      the versions put under each name in order. */
  datatype Contents = Contents(graph: Graph, latest: map<string, string>, versions: map<string, seq<int>>)

  /** An artifact as it is handed to `put`. */
  datatype Incoming = Incoming(id: string, name: string, parents: seq<string>, names: seq<string>, ids: seq<string>,
                               version: int)

  /** The latest artifacts of the named sources that exist. */
  function Known(latest: map<string, string>, names: seq<string>): seq<string> {
    if names == [] then []
    else (if Strip(names[0]) in latest then [latest[Strip(names[0])]] else []) + Known(latest, names[1..])
  }

  /** The ids found are those under the stripped source names. */
  lemma {:induction false} KnownExactly(latest: map<string, string>, names: seq<string>, p: string)
    ensures p in Known(latest, names) <==>
            exists i :: 0 <= i < |names| && Strip(names[i]) in latest && latest[Strip(names[i])] == p
  {
    if names != [] {
      KnownExactly(latest, names[1..], p);
      if i :| 0 <= i < |names| && Strip(names[i]) in latest && latest[Strip(names[i])] == p {
        assert i > 0 ==> names[1..][i - 1] == names[i];
      }
      if i :| 0 <= i < |names| - 1 && Strip(names[1..][i]) in latest && latest[Strip(names[1..][i])] == p {
        assert names[i + 1] == names[1..][i];
      }
    }
  }

  function MaxOf(vs: seq<int>): int
    requires vs != []
  {
    if |vs| == 1 then vs[0]
    else
      var m := MaxOf(vs[..|vs| - 1]);
      if vs[|vs| - 1] > m then vs[|vs| - 1] else m
  }

  /** The version given to an artifact whose name has these versions already. */
  function NextVersion(vs: seq<int>, own: int): int {
    if vs == [] then own else MaxOf(vs) + 1
  }

  predicate StrictlyIncreasing(vs: seq<int>) {
    forall i, j :: 0 <= i < j < |vs| ==> vs[i] < vs[j]
  }

  lemma {:induction false} MaxIsMax(vs: seq<int>)
    requires vs != []
    ensures MaxOf(vs) in vs && forall i :: 0 <= i < |vs| ==> vs[i] <= MaxOf(vs)
  {
    if |vs| > 1 {
      var init := vs[..|vs| - 1];
      MaxIsMax(init);
      assert vs == init + [vs[|vs| - 1]];
    }
  }

  lemma GrowthStep(vs: seq<int>, own: int)
    ensures StrictlyIncreasing(vs + [NextVersion(vs, own)]) <==> StrictlyIncreasing(vs)
    ensures forall i :: 0 <= i < |vs| ==> vs[i] < NextVersion(vs, own)
    ensures vs == [] ==> NextVersion(vs, own) == own
    ensures vs != [] ==> exists i :: 0 <= i < |vs| && NextVersion(vs, own) == vs[i] + 1
  {
    if vs != [] {
      MaxIsMax(vs);
    }
    var all := vs + [NextVersion(vs, own)];
    if StrictlyIncreasing(all) {
      forall i, j | 0 <= i < j < |vs|
        ensures vs[i] < vs[j]
      {
        assert all[i] == vs[i] && all[j] == vs[j];
      }
    }
  }

  function VersionsOf(c: Contents, name: string): seq<int> {
    if name in c.versions then c.versions[name] else []
  }

  function ParentsOf(c: Contents, a: Incoming): seq<string> {
    Dedupe(a.parents + NonBlankNames(a.ids) + Known(c.latest, a.names))
  }

  /** The parents of an artifact put: those it names itself, its non-blank source ids, and the latest artifacts of its
      source names; each once, its own first. */
  lemma ParentsExactly(c: Contents, a: Incoming, p: string)
    ensures var ps := ParentsOf(c, a);
            NoDuplicates(ps) && Dedupe(a.parents) <= ps &&
            (p in ps <==>
             p in a.parents || (p != "" && exists i :: 0 <= i < |a.ids| && Strip(a.ids[i]) == p) ||
             exists i :: 0 <= i < |a.names| && Strip(a.names[i]) in c.latest && c.latest[Strip(a.names[i])] == p)
  {
    var ids, known := NonBlankNames(a.ids), Known(c.latest, a.names);
    var all := a.parents + ids + known;
    DedupeFacts(all);
    NonBlankExactly(a.ids, p);
    KnownExactly(c.latest, a.names, p);
    assert p in all <==> p in a.parents || p in ids || p in known;
    if |a.parents| < |all| {
      DedupeAt(all, |a.parents|);
      assert all[..|a.parents|] == a.parents;
    } else {
      assert all == a.parents;
    }
  }

  /** `put` of an artifact that is not in the store. */
  function PutStep(c: Contents, a: Incoming): Contents {
    Contents(c.graph[a.id := ParentsOf(c, a)], c.latest[a.name := a.id],
             c.versions[a.name := VersionsOf(c, a.name) + [NextVersion(VersionsOf(c, a.name), a.version)]])
  }

  // ----- the store object -----

  function Versions(list: seq<ExecutionArtifact>): seq<int>
    reads list
  {
    seq(|list|, i requires 0 <= i < |list| reads list => list[i].version)
  }

  class ExecutionStore {
    const sessionId: string
    var byId: map<string, ExecutionArtifact>
    /** The keys of `_by_id` in insertion order. */
    var order: seq<string>
    var byName: map<string, seq<ExecutionArtifact>>
    ghost var Repr: set<ExecutionArtifact>

    ghost predicate Valid()
      reads this
    {
      (forall k :: k in byId ==> byId[k] in Repr && byId[k].id == k) &&
      (forall n :: n in byName ==> byName[n] != [] && forall i :: 0 <= i < |byName[n]| ==> byName[n][i] in Repr) &&
      (forall k :: k in order <==> k in byId) && NoDuplicates(order)
    }

    /** The id of the latest artifact of each name. */
    function Latest(): map<string, string>
      reads this
    {
      map n | n in byName && byName[n] != [] :: byName[n][|byName[n]| - 1].id
    }

    ghost function ParentGraph(): Graph
      requires Valid()
      reads this, Repr
    {
      map k | k in byId :: byId[k].parentIds
    }

    ghost function AllVersions(): map<string, seq<int>>
      requires Valid()
      reads this, Repr
    {
      map n | n in byName :: Versions(byName[n])
    }

    ghost function Abstract(): Contents
      requires Valid()
      reads this, Repr
    {
      Contents(ParentGraph(), Latest(), AllVersions())
    }

    /** The artifacts put under a name, oldest first. */
    function Named(name: string): seq<ExecutionArtifact>
      reads this
    {
      if name in byName then byName[name] else []
    }

    constructor (sessionId: string)
      ensures Valid() && Repr == {} && this.sessionId == sessionId
      ensures Abstract() == Contents(map[], map[], map[])
    {
      this.sessionId := sessionId;
      byId, order, byName, Repr := map[], [], map[], {};
    }

    /** `get_latest`, None when the name is unknown. */
    function GetLatest(name: string): Option<ExecutionArtifact>
      reads this
    {
      if name in byName && byName[name] != [] then Some(byName[name][|byName[name]| - 1]) else None
    }

    method Put(artifact: ExecutionArtifact) returns (r: ExecutionArtifact)
      requires Valid()
      modifies this, artifact`sessionId, artifact`parentIds, artifact`version
      ensures Valid() && Repr == old(Repr) + {artifact} && r == artifact && artifact.sessionId == sessionId
      ensures artifact.parentIds == Dedupe(old(artifact.parentIds) + NonBlankNames(old(artifact.sourceIds)) +
                                           Known(old(Latest()), old(artifact.sourceNames)))
      ensures artifact.version == NextVersion(old(Versions(Named(artifact.name))), old(artifact.version))
      ensures byId == old(byId)[artifact.id := artifact]
      ensures byName == old(byName)[artifact.name := old(Named(artifact.name)) + [artifact]]
      ensures order == if artifact.id in old(byId) then old(order) else old(order) + [artifact.id]
      ensures artifact !in old(Repr) ==> Abstract() == PutStep(old(Abstract()), old(Describe(artifact)))
    {
      Prepare(artifact);
      Register(artifact);
      r := artifact;
      if artifact !in old(Repr) {
        PutIsStep(artifact);
      }
    }

    /** Session, parents and version of the artifact, before it is registered. */
    method Prepare(artifact: ExecutionArtifact)
      modifies artifact`sessionId, artifact`parentIds, artifact`version
      ensures artifact.sessionId == sessionId
      ensures artifact.parentIds == Dedupe(old(artifact.parentIds) + NonBlankNames(old(artifact.sourceIds)) +
                                           Known(Latest(), old(artifact.sourceNames)))
      ensures artifact.version == NextVersion(old(Versions(Named(artifact.name))), old(artifact.version))
    {
      artifact.sessionId := sessionId;
      var parents := LatestParents(artifact.sourceNames);
      artifact.parentIds := Dedupe(artifact.parentIds + NonBlankNames(artifact.sourceIds) + parents);
      var existing := Named(artifact.name);
      assert Versions(existing) == old(Versions(Named(artifact.name)));
      if existing != [] {
        artifact.version := MaxOf(Versions(existing)) + 1;
      }
    }

    method LatestParents(names: seq<string>) returns (parents: seq<string>)
      ensures parents == Known(Latest(), names)
    {
      parents := [];
      for i := 0 to |names|
        invariant Known(Latest(), names) == parents + Known(Latest(), names[i..])
      {
        ghost var rest := names[i..];
        assert rest[1..] == names[i + 1..];
        var parent := GetLatest(Strip(names[i]));
        if parent.Some? {
          AssocSeq(parents, [parent.value.id], Known(Latest(), rest[1..]));
          parents := parents + [parent.value.id];
        } else {
          NilSeq(Known(Latest(), rest[1..]));
        }
      }
      NilSeq(parents);
    }

    method Register(artifact: ExecutionArtifact)
      requires Valid()
      modifies this
      ensures Valid() && Repr == old(Repr) + {artifact}
      ensures byId == old(byId)[artifact.id := artifact]
      ensures byName == old(byName)[artifact.name := old(Named(artifact.name)) + [artifact]]
      ensures order == if artifact.id in old(byId) then old(order) else old(order) + [artifact.id]
    {
      if artifact.id !in byId {
        order := order + [artifact.id];
      }
      byId := byId[artifact.id := artifact];
      byName := byName[artifact.name := Named(artifact.name) + [artifact]];
      Repr := Repr + {artifact};
    }

    /** Only the fresh artifact changed, besides the two registrations. */
    twostate predicate Added(a: ExecutionArtifact)
      reads this, Repr, a
    {
      old(Valid()) && Valid() && a !in old(Repr) && a.name == old(a.name) &&
      byId == old(byId)[a.id := a] && byName == old(byName)[a.name := old(Named(a.name)) + [a]] &&
      forall b :: b in old(Repr) ==> b in Repr && b.parentIds == old(b.parentIds) && b.version == old(b.version)
    }

    twostate lemma AddedVersions(a: ExecutionArtifact)
      requires Added(a)
      ensures AllVersions() == old(AllVersions())[a.name := old(Versions(Named(a.name))) + [a.version]]
    {
      forall n | n in byName
        ensures Versions(byName[n]) == old(AllVersions())[a.name := old(Versions(Named(a.name))) + [a.version]][n]
      {
        var was := old(Named(n));
        assert forall i :: 0 <= i < |was| ==> was[i] in old(Repr);
      }
    }

    twostate lemma AddedGraph(a: ExecutionArtifact)
      requires Added(a)
      ensures ParentGraph() == old(ParentGraph())[a.id := a.parentIds]
    {
    }

    twostate lemma AddedLatest(a: ExecutionArtifact)
      requires Added(a)
      ensures Latest() == old(Latest())[a.name := a.id]
    {
    }

    /** A fresh artifact moves the store by exactly one step of the value model. */
    twostate lemma PutIsStep(a: ExecutionArtifact)
      requires Added(a)
      requires a.parentIds == Dedupe(old(a.parentIds) + NonBlankNames(old(a.sourceIds)) +
                                     Known(old(Latest()), old(a.sourceNames)))
      requires a.version == NextVersion(old(Versions(Named(a.name))), old(a.version))
      ensures Abstract() == PutStep(old(Abstract()), old(Describe(a)))
    {
      AddedVersions(a);
      AddedGraph(a);
      AddedLatest(a);
      assert VersionsOf(old(Abstract()), old(a.name)) == old(Versions(Named(a.name)));
    }

    /** Versions under a name grow strictly through a `put` exactly when the object was not already listed there. */
    twostate lemma GrowthExactlyForNewObjects(a: ExecutionArtifact)
      requires old(Valid()) && Valid() && a.name == old(a.name)
      requires byName == old(byName)[a.name := old(Named(a.name)) + [a]]
      requires a.version == NextVersion(old(Versions(Named(a.name))), old(a.version))
      requires forall b :: b in old(Repr) && b != a ==> b in Repr && b.version == old(b.version)
      ensures StrictlyIncreasing(Versions(Named(a.name))) <==>
              StrictlyIncreasing(old(Versions(Named(a.name)))) && a !in old(Named(a.name))
    {
      var was, now := old(Named(a.name)), Named(a.name);
      var vs, ws := old(Versions(was)), Versions(now);
      assert now == was + [a] && forall i :: 0 <= i < |was| ==> was[i] in old(Repr);
      if a in was {
        var i :| 0 <= i < |was| && was[i] == a;
        assert ws[i] == ws[|was|];
      } else {
        assert ws == vs + [a.version];
        GrowthStep(vs, old(a.version));
      }
    }

    /** Versions under any other name stay what they were exactly unless the object is listed there and gets another
        version, as happens when it was renamed after an earlier `put`. */
    twostate lemma OtherNamesKeepVersions(a: ExecutionArtifact, n: string)
      requires old(Valid()) && Valid() && a.name == old(a.name) && n != a.name
      requires byName == old(byName)[a.name := old(Named(a.name)) + [a]]
      requires forall b :: b in old(Repr) && b != a ==> b in Repr && b.version == old(b.version)
      ensures Versions(Named(n)) == old(Versions(Named(n))) <==> a !in old(Named(n)) || a.version == old(a.version)
    {
      var was := old(Named(n));
      assert Named(n) == was && forall i :: 0 <= i < |was| ==> was[i] in old(Repr);
      if a in was {
        var i :| 0 <= i < |was| && was[i] == a;
        assert Versions(Named(n))[i] == a.version && old(Versions(Named(n)))[i] == old(a.version);
      }
    }

    function GetParents(id: string): seq<ExecutionArtifact>
      reads this, if id in byId then {byId[id]} else {}
    {
      if id !in byId then [] else Stored(byId[id].parentIds)
    }

    /** The stored artifacts among the ids, in order. */
    function Stored(ids: seq<string>): seq<ExecutionArtifact>
      reads this
    {
      if ids == [] then [] else (if ids[0] in byId then [byId[ids[0]]] else []) + Stored(ids[1..])
    }

    /** `get_lineage`: the stored ancestors in walk order. */
    method GetLineage(id: string) returns (chain: seq<ExecutionArtifact>)
      requires Valid()
      ensures chain == Stored(LineageIds(ParentGraph(), id))
    {
      var visited;
      visited, chain := WalkFrom(id, {}, []);
      NilSeq(chain);
    }

    method WalkFrom(id: string, visited0: set<string>, chain0: seq<ExecutionArtifact>)
        returns (visited: set<string>, chain: seq<ExecutionArtifact>)
      requires Valid()
      ensures var r := Walk(ParentGraph(), visited0, id);
              visited == r.visited && chain == chain0 + Stored(r.chain)
      decreases ParentGraph().Keys - visited0
    {
      visited, chain := visited0, chain0;
      ghost var g := ParentGraph();
      if id in visited {
        NilSeq(chain);
        return;
      }
      visited := visited + {id};
      if id !in byId {
        NilSeq(chain);
        return;
      }
      var artifact := byId[id];
      var ids := artifact.parentIds;
      ghost var all := WalkAll(g, visited, ids);
      NilSeq(chain);
      NilSeq(all.chain);
      ghost var sofar: seq<string> := [];
      for i := 0 to |ids|
        invariant visited0 + {id} <= visited && chain == chain0 + Stored(sofar)
        invariant Continues(all, sofar, WalkAll(g, visited, ids[i..]))
      {
        ghost var step := Walk(g, visited, ids[i]);
        WalkOn(g, visited, ids, i, all, sofar);
        StoredAfter(chain0, sofar, step.chain);
        visited, chain := WalkFrom(ids[i], visited, chain);
        sofar := sofar + step.chain;
      }
      NilSeq(sofar);
      assert Stored([id]) == [artifact] + Stored([]);
      StoredAfter(chain0, sofar, [id]);
      chain := chain + [artifact];
    }

    lemma StoredAfter(chain: seq<ExecutionArtifact>, a: seq<string>, b: seq<string>)
      ensures chain + Stored(a + b) == (chain + Stored(a)) + Stored(b)
    {
      StoredAppend(a, b);
      AssocSeq(chain, Stored(a), Stored(b));
    }

    lemma StoredAppend(a: seq<string>, b: seq<string>)
      ensures Stored(a + b) == Stored(a) + Stored(b)
    {
      if a == [] {
        NilSeq(b);
        NilSeq(Stored(b));
      } else {
        StoredAppend(a[1..], b);
        assert (a + b)[1..] == a[1..] + b;
        AssocSeq(if a[0] in byId then [byId[a[0]]] else [], Stored(a[1..]), Stored(b));
      }
    }

    /** `get_children`: artifacts naming the id as a parent, in insertion order. */
    method GetChildren(id: string) returns (children: seq<ExecutionArtifact>)
      requires Valid()
      ensures children == ChildrenAmong(id, order)
    {
      children := [];
      for i := 0 to |order|
        invariant ChildrenAmong(id, order) == children + ChildrenAmong(id, order[i..])
      {
        ghost var rest := order[i..];
        assert rest[1..] == order[i + 1..];
        assert order[i] in order;
        var a := byId[order[i]];
        AssocSeq(children, [a], ChildrenAmong(id, rest[1..]));
        NilSeq(ChildrenAmong(id, rest[1..]));
        if id in a.parentIds {
          children := children + [a];
        }
      }
      NilSeq(children);
    }

    ghost function ChildrenAmong(id: string, keys: seq<string>): seq<ExecutionArtifact>
      requires Valid()
      reads this, Repr
    {
      if keys == [] then []
      else
        (if keys[0] in byId && id in byId[keys[0]].parentIds then [byId[keys[0]]] else []) +
        ChildrenAmong(id, keys[1..])
    }

    /** Children and parents mirror each other: a stored artifact is among the children of a stored id exactly when
        that id's artifact is among its parents. */
    lemma ChildrenMirrorParents(child: string, parent: string)
      requires Valid() && child in byId && parent in byId
      ensures byId[child] in ChildrenAmong(parent, order) <==> byId[parent] in GetParents(child)
    {
      ChildrenAre(parent, order, child);
      StoredAre(byId[child].parentIds, parent);
    }

    lemma ChildrenAre(id: string, keys: seq<string>, child: string)
      requires Valid() && child in byId
      ensures byId[child] in ChildrenAmong(id, keys) <==> child in keys && id in byId[child].parentIds
    {
      if keys != [] {
        ChildrenAre(id, keys[1..], child);
        assert keys == [keys[0]] + keys[1..];
      }
    }

    lemma StoredAre(ids: seq<string>, id: string)
      requires Valid() && id in byId
      ensures byId[id] in Stored(ids) <==> id in ids
    {
      if ids != [] {
        StoredAre(ids[1..], id);
        assert ids == [ids[0]] + ids[1..];
      }
    }
  }

  function Describe(a: ExecutionArtifact): Incoming
    reads a
  {
    Incoming(a.id, a.name, a.parentIds, a.sourceNames, a.sourceIds, a.version)
  }

  /** Putting an object twice, whatever the store holds: the versions under its name no longer grow. */
  method PutTwice(store: ExecutionStore, a: ExecutionArtifact)
    requires store.Valid()
    modifies store, a`sessionId, a`parentIds, a`version
    ensures store.Valid() && !StrictlyIncreasing(Versions(store.Named(a.name)))
  {
    var first := store.Put(a);
    ghost var named := store.Named(a.name);
    assert named[|named| - 1] == a;
    label again:
    var second := store.Put(a);
    store.GrowthExactlyForNewObjects@again(a);
  }

  // ----- runs of puts -----

  const EMPTY := Contents(map[], map[], map[])

  function RunPuts(puts: seq<Incoming>): Contents {
    if puts == [] then EMPTY else PutStep(RunPuts(puts[..|puts| - 1]), puts[|puts| - 1])
  }

  /** Every id is new and every explicitly named parent is stored when the artifact is put. */
  predicate CleanPuts(puts: seq<Incoming>)
    decreases |puts|
  {
    puts == [] ||
    (CleanPuts(puts[..|puts| - 1]) &&
     var c, a := RunPuts(puts[..|puts| - 1]), puts[|puts| - 1];
     a.id !in c.graph && (forall p :: p in a.parents ==> p in c.graph) &&
     forall p :: p in NonBlankNames(a.ids) ==> p in c.graph)
  }

  ghost predicate StoreInv(c: Contents) {
    Acyclic(c.graph) && Closed(c.graph) && (forall n :: n in c.latest ==> c.latest[n] in c.graph) &&
    forall n :: n in c.versions ==> c.versions[n] != [] && StrictlyIncreasing(c.versions[n])
  }

  lemma {:induction false} KnownAreStored(c: Contents, names: seq<string>)
    requires forall n :: n in c.latest ==> c.latest[n] in c.graph
    ensures forall p :: p in Known(c.latest, names) ==> p in c.graph
  {
    if names != [] {
      KnownAreStored(c, names[1..]);
    }
  }

  lemma ParentsAreStored(c: Contents, a: Incoming)
    requires forall n :: n in c.latest ==> c.latest[n] in c.graph
    requires (forall p :: p in a.parents ==> p in c.graph) && forall p :: p in NonBlankNames(a.ids) ==> p in c.graph
    ensures forall p :: p in ParentsOf(c, a) ==> p in c.graph
  {
    KnownAreStored(c, a.names);
    var all := a.parents + NonBlankNames(a.ids) + Known(c.latest, a.names);
    DedupeFacts(all);
    forall p | p in ParentsOf(c, a)
      ensures p in c.graph
    {
      assert p in all;
    }
  }

  lemma PutKeepsInv(c: Contents, a: Incoming)
    requires StoreInv(c) && a.id !in c.graph && forall p :: p in ParentsOf(c, a) ==> p in c.graph
    ensures StoreInv(PutStep(c, a))
  {
    AddedNodeKeepsAcyclic(c.graph, a.id, ParentsOf(c, a));
    GrowthStep(VersionsOf(c, a.name), a.version);
  }

  lemma {:induction false} CleanRunsKeepInv(puts: seq<Incoming>)
    requires CleanPuts(puts)
    ensures StoreInv(RunPuts(puts))
  {
    if puts != [] {
      var c, a := RunPuts(puts[..|puts| - 1]), puts[|puts| - 1];
      CleanRunsKeepInv(puts[..|puts| - 1]);
      ParentsAreStored(c, a);
      PutKeepsInv(c, a);
    }
  }

  /** Over any run of puts with new ids and stored explicit parents, each lineage lists exactly the ancestors of
      its artifact, every parent is stored and stands before its child, versions under each name strictly increase
      and the latest one is the greatest. */
  lemma {:induction false} LineageAfterAnyRun(puts: seq<Incoming>, id: string)
    requires CleanPuts(puts)
    ensures var g, chain := RunPuts(puts).graph, LineageIds(RunPuts(puts).graph, id);
            Topological(g, chain) && NoDuplicates(chain) && Closed(g) &&
            forall x :: x in chain <==> x in g && Reaches(g, id, x)
    ensures forall n :: n in RunPuts(puts).versions ==>
              var vs := RunPuts(puts).versions[n];
              vs != [] && StrictlyIncreasing(vs) && forall i :: 0 <= i < |vs| ==> vs[i] <= vs[|vs| - 1]
  {
    CleanRunsKeepInv(puts);
    var g := RunPuts(puts).graph;
    LineageListsAncestors(g, id);
    TopologicalExactlyWithoutCycles(g, id);
  }

  /** Two artifacts that name each other as parents: the walk from one lists it after its parent, which then stands
      before a parent of its own. */
  lemma MutualParentsAreNotTopological()
    ensures var puts := [Incoming("a", "x", ["b"], [], [], 1), Incoming("b", "y", ["a"], [], [], 1)];
            var g := RunPuts(puts).graph;
            g == TWO_CYCLE && LineageIds(g, "a") == ["b", "a"] && !Topological(g, LineageIds(g, "a"))
  {
    var a, b := Incoming("a", "x", ["b"], [], [], 1), Incoming("b", "y", ["a"], [], [], 1);
    var puts := [a, b];
    assert puts[..1] == [a] && puts[..1][..0] == [];
    OnlyParent(EMPTY, a, "b");
    OnlyParent(RunPuts([a]), b, "a");
    assert RunPuts([a]) == PutStep(EMPTY, a);
    assert RunPuts(puts) == PutStep(RunPuts([a]), b);
    CycleLineage();
  }

  lemma OnlyParent(c: Contents, a: Incoming, p: string)
    requires a.parents == [p] && a.names == [] && a.ids == []
    ensures ParentsOf(c, a) == [p]
  {
    DedupeSnoc([], p);
    NilSeq([p]);
    assert a.parents + NonBlankNames(a.ids) + Known(c.latest, a.names) == [p];
  }
}
