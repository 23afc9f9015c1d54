/** The response cache over any run of gets and sets without a second tier. */
module QueryCacheRuns {
  import opened Options
  import opened Lists
  import opened QueryCache

  datatype Op<V> = GetAt(key: string, now: real) | SetAt(key: string, now: real, response: V)

  function Apply<V>(d: seq<Slot<V>>, s: Settings, op: Op<V>): seq<Slot<V>> {
    match op
    case GetAt(key, now) => CacheGet(d, s, key, now, None).dict
    case SetAt(key, now, response) => CacheSet(d, s, key, now, response)
  }

  function After<V>(s: Settings, ops: seq<Op<V>>): seq<Slot<V>> {
    if ops == [] then [] else Apply(After(s, ops[..|ops| - 1]), s, ops[|ops| - 1])
  }

  // ----- the plain timestamped map and the uses of each key -----

  /** The last response set for the key, with its time. */
  function LastSet<V>(ops: seq<Op<V>>, key: string): Option<Entry<V>> {
    if ops == [] then None
    else
      var op := ops[|ops| - 1];
      if op.SetAt? && op.key == key then Some(Entry(op.now, op.response)) else LastSet(ops[..|ops| - 1], key)
  }

  // ----- what a get finds, told from the operations alone -----

  /** The age bound: the configured seconds, but never less than one. */
  predicate Young(s: Settings, age: real) {
    age <= 1.0 || age <= s.ttl as real
  }

  /** As many as the cache holds: the configured number, but never fewer than eight. */
  predicate Full(s: Settings, n: nat) {
    n >= 8 && n >= s.size
  }

  /** The key was set, its response is young enough, and it was never crowded out since its own last use. */
  predicate Hit<V>(s: Settings, ops: seq<Op<V>>, key: string, now: real)
    decreases |ops|, 2
  {
    LastSet(ops, key).Some? && Young(s, now - LastSet(ops, key).value.created) && !Crowded(s, ops, key)
  }

  /** The operation sets its key, or gets it successfully. */
  predicate Uses<V>(s: Settings, ops: seq<Op<V>>, op: Op<V>)
    decreases |ops|, 3
  {
    op.SetAt? || Hit(s, ops, op.key, op.now)
  }

  /** The other keys used since the key's own last use. */
  function Rivals<V>(s: Settings, ops: seq<Op<V>>, key: string): set<string>
    decreases |ops|, 0
  {
    if ops == [] then {}
    else
      var op, init := ops[|ops| - 1], ops[..|ops| - 1];
      if !Uses(s, init, op) then Rivals(s, init, key)
      else if op.key == key then {}
      else Rivals(s, init, key) + {op.key}
  }

  /** The rivals that no get has missed since their last use. */
  function LiveRivals<V>(s: Settings, ops: seq<Op<V>>, key: string): set<string>
    decreases |ops|, 0
  {
    if ops == [] then {}
    else
      var op, init := ops[|ops| - 1], ops[..|ops| - 1];
      if !Uses(s, init, op) then LiveRivals(s, init, key) - {op.key}
      else if op.key == key then {}
      else LiveRivals(s, init, key) + {op.key}
  }

  /** At some time since the key's own last use there were max(8, limit) live rivals. */
  predicate Crowded<V>(s: Settings, ops: seq<Op<V>>, key: string)
    decreases |ops|, 1
  {
    ops != [] &&
    var op, init := ops[|ops| - 1], ops[..|ops| - 1];
    !(Uses(s, init, op) && op.key == key) && (Crowded(s, init, key) || Full(s, |LiveRivals(s, ops, key)|))
  }

  /** The clock never goes back, and `now` is not before the last operation. */
  predicate ClockUpTo<V>(ops: seq<Op<V>>, now: real) {
    ops == [] || (ops[|ops| - 1].now <= now && ClockUpTo(ops[..|ops| - 1], ops[|ops| - 1].now))
  }

  // ----- ordered dictionaries -----

  predicate DistinctKeys<V>(d: seq<Slot<V>>) {
    d == [] || (Lookup(d[1..], d[0].key) == None && DistinctKeys(d[1..]))
  }

  function KeySet<V>(d: seq<Slot<V>>): set<string> {
    if d == [] then {} else {d[0].key} + KeySet(d[1..])
  }

  /** The keys more recent than this one. */
  function Newer<V>(d: seq<Slot<V>>, key: string): set<string> {
    if d == [] then {} else if d[0].key == key then KeySet(d[1..]) else Newer(d[1..], key)
  }

  lemma {:induction false} KeySetLookup<V>(d: seq<Slot<V>>, key: string)
    ensures key in KeySet(d) <==> Lookup(d, key).Some?
  {
    if d != [] {
      KeySetLookup(d[1..], key);
    }
  }

  lemma {:induction false} KeySetSize<V>(d: seq<Slot<V>>)
    requires DistinctKeys(d)
    ensures |KeySet(d)| == |d|
  {
    if d != [] {
      KeySetSize(d[1..]);
      KeySetLookup(d[1..], d[0].key);
    }
  }

  lemma {:induction false} WithoutKeys<V>(d: seq<Slot<V>>, gone: string, key: string)
    requires DistinctKeys(d)
    ensures var w := Without(d, gone);
            DistinctKeys(w) && Lookup(w, key) == (if key == gone then None else Lookup(d, key))
  {
    if d != [] {
      WithoutKeys(d[1..], gone, key);
      WithoutKeys(d[1..], gone, d[0].key);
      if d[0].key == gone {
        WithoutAbsent(d[1..], gone);
        NilSeq(d[1..]);
      } else {
        assert Without(d, gone)[1..] == Without(d[1..], gone);
      }
    }
  }

  lemma {:induction false} WithoutSizes<V>(d: seq<Slot<V>>, gone: string, key: string)
    requires DistinctKeys(d)
    ensures var w := Without(d, gone);
            |w| <= |d| && (Lookup(d, gone).Some? ==> |w| == |d| - 1) &&
            KeySet(w) == KeySet(d) - {gone} && (key != gone ==> Newer(w, key) == Newer(d, key) - {gone})
  {
    if d != [] {
      WithoutSizes(d[1..], gone, key);
      KeySetLookup(d[1..], d[0].key);
      if d[0].key == gone {
        WithoutAbsent(d[1..], gone);
        NilSeq(d[1..]);
        NewerAreKeys(d[1..], key);
      } else {
        assert Without(d, gone)[1..] == Without(d[1..], gone);
      }
    }
  }

  lemma {:induction false} NewerAreKeys<V>(d: seq<Slot<V>>, key: string)
    ensures Newer(d, key) <= KeySet(d)
  {
    if d != [] {
      NewerAreKeys(d[1..], key);
    }
  }

  lemma WithoutFacts<V>(d: seq<Slot<V>>, gone: string, key: string)
    requires DistinctKeys(d)
    ensures var w := Without(d, gone);
            DistinctKeys(w) && |w| <= |d| && (Lookup(d, gone).Some? ==> |w| == |d| - 1) &&
            Lookup(w, key) == (if key == gone then None else Lookup(d, key)) &&
            KeySet(w) == KeySet(d) - {gone} && (key != gone ==> Newer(w, key) == Newer(d, key) - {gone})
  {
    WithoutKeys(d, gone, key);
    WithoutSizes(d, gone, key);
  }

  lemma {:induction false} SnocFacts<V>(d: seq<Slot<V>>, s: Slot<V>, key: string)
    requires DistinctKeys(d) && Lookup(d, s.key) == None
    ensures var w := d + [s];
            DistinctKeys(w) && Lookup(w, key) == (if key == s.key then Some(s.entry) else Lookup(d, key)) &&
            KeySet(w) == KeySet(d) + {s.key} &&
            (Lookup(d, key).Some? ==> Newer(w, key) == Newer(d, key) + {s.key}) && Newer(w, s.key) == {}
  {
    LookupAppend(d, [s], key);
    if d == [] {
      NilSeq([s]);
      assert [s][1..] == [];
    } else {
      SnocFacts(d[1..], s, key);
      SnocFacts(d[1..], s, d[0].key);
      assert (d + [s])[1..] == d[1..] + [s];
    }
  }

  /** Trimming a dictionary at most one too long. */
  lemma TrimFacts<V>(d: seq<Slot<V>>, limit: nat, key: string)
    requires DistinctKeys(d) && |d| <= limit + 1
    ensures var w := Newest(d, limit);
            DistinctKeys(w) && |w| <= limit &&
            if |d| == limit + 1 && d[0].key == key then Lookup(w, key) == None && |Newer(d, key)| == limit
            else Lookup(w, key) == Lookup(d, key) && Newer(w, key) == Newer(d, key)
  {
    if |d| == limit + 1 {
      assert Newest(d, limit) == d[1..];
      KeySetSize(d[1..]);
    }
  }

  // ----- one operation -----

  /** What a use does to the dictionary, seen from one key. */
  lemma UseFacts<V>(d: seq<Slot<V>>, limit: nat, used: string, e: Entry<V>, key: string)
    requires DistinctKeys(d) && |d| <= limit && limit > 0
    ensures var w := Newest(AtEnd(d, used, e), limit);
            DistinctKeys(w) && |w| <= limit &&
            if key == used then Lookup(w, key) == Some(e) && Newer(w, key) == {}
            else if Lookup(d, key) == None then Lookup(w, key) == None
            else if Lookup(w, key) == None then |Newer(d, key) - {used} + {used}| >= limit
            else Lookup(w, key) == Lookup(d, key) && Newer(w, key) == Newer(d, key) - {used} + {used}
  {
    var a := AtEnd(d, used, e);
    WithoutFacts(d, used, key);
    WithoutFacts(d, used, used);
    SnocFacts(Without(d, used), Slot(used, e), key);
    TrimFacts(a, limit, key);
  }

  /** A key in the dictionary holds the last response set for it, is not crowded out, and exactly its live rivals are
      more recent; a key that was set and is gone was crowded out or is too old. */
  ghost predicate KeyInv<V>(s: Settings, ops: seq<Op<V>>, key: string) {
    var d := After(s, ops);
    match Lookup(d, key)
    case Some(e) => LastSet(ops, key) == Some(e) && Newer(d, key) == LiveRivals(s, ops, key) && !Crowded(s, ops, key)
    case None =>
      LastSet(ops, key).Some? ==>
        Crowded(s, ops, key) || !Young(s, ops[|ops| - 1].now - LastSet(ops, key).value.created)
  }

  ghost predicate DictInv<V>(s: Settings, d: seq<Slot<V>>) {
    DistinctKeys(d) && |d| <= Limit(s)
  }

  /** The dictionary holds a response for the key that is young enough. */
  predicate Holds<V>(d: seq<Slot<V>>, s: Settings, key: string, now: real) {
    Lookup(d, key).Some? && now - Lookup(d, key).value.created <= MaxAge(s)
  }

  predicate Refreshes<V>(d: seq<Slot<V>>, s: Settings, op: Op<V>) {
    op.SetAt? || Holds(d, s, op.key, op.now)
  }

  lemma SetIsUse<V>(d: seq<Slot<V>>, s: Settings, op: Op<V>)
    requires s.enabled && Refreshes(d, s, op) && DictInv(s, d)
    ensures var e := if op.SetAt? then Entry(op.now, op.response) else Lookup(d, op.key).value;
            Apply(d, s, op) == Newest(AtEnd(d, op.key, e), Limit(s))
  {
    if op.GetAt? {
      WithoutFacts(d, op.key, op.key);
    }
  }

  /** A get that misses removes its key, if it is there at all. */
  lemma MissRemoves<V>(d: seq<Slot<V>>, s: Settings, op: Op<V>)
    requires s.enabled && !Refreshes(d, s, op)
    ensures Apply(d, s, op) == Without(d, op.key)
  {
    if Lookup(d, op.key) == None {
      WithoutAbsent(d, op.key);
    }
  }

  lemma OpKeepsDict<V>(d: seq<Slot<V>>, s: Settings, op: Op<V>)
    requires s.enabled && DictInv(s, d)
    ensures DictInv(s, Apply(d, s, op))
  {
    if Refreshes(d, s, op) {
      var e := if op.SetAt? then Entry(op.now, op.response) else Lookup(d, op.key).value;
      SetIsUse(d, s, op);
      UseFacts(d, Limit(s), op.key, e, op.key);
    } else {
      MissRemoves(d, s, op);
      WithoutFacts(d, op.key, op.key);
    }
  }

  lemma {:induction false} SizeBounded<V>(s: Settings, ops: seq<Op<V>>)
    requires s.enabled
    ensures DictInv(s, After(s, ops))
  {
    if ops != [] {
      SizeBounded(s, ops[..|ops| - 1]);
      OpKeepsDict(After(s, ops[..|ops| - 1]), s, ops[|ops| - 1]);
    }
  }

  /** What the dictionary holds is what the operations tell. */
  lemma HoldsIsHit<V>(s: Settings, ops: seq<Op<V>>, key: string, now: real)
    requires KeyInv(s, ops, key) && ClockUpTo(ops, now)
    ensures Holds(After(s, ops), s, key, now) <==> Hit(s, ops, key, now)
  {
  }

  lemma UseKeepsKey<V>(s: Settings, ops: seq<Op<V>>, op: Op<V>, key: string)
    requires s.enabled && DictInv(s, After(s, ops)) && KeyInv(s, ops, key) && KeyInv(s, ops, op.key)
    requires ClockUpTo(ops, op.now) && Uses(s, ops, op)
    ensures KeyInv(s, ops + [op], key)
  {
    var d, all := After(s, ops), ops + [op];
    assert all[..|ops|] == ops && all[|ops|] == op;
    HoldsIsHit(s, ops, op.key, op.now);
    var e := if op.SetAt? then Entry(op.now, op.response) else Lookup(d, op.key).value;
    SetIsUse(d, s, op);
    UseFacts(d, Limit(s), op.key, e, key);
    if key != op.key && Lookup(d, key).Some? {
      assert Newer(d, key) - {op.key} + {op.key} == LiveRivals(s, all, key);
      if Lookup(After(s, all), key).Some? {
        NewerSize(After(s, all), key);
      }
    }
  }

  lemma MissKeepsKey<V>(s: Settings, ops: seq<Op<V>>, op: Op<V>, key: string)
    requires s.enabled && DictInv(s, After(s, ops)) && KeyInv(s, ops, key) && KeyInv(s, ops, op.key)
    requires ClockUpTo(ops, op.now) && !Uses(s, ops, op)
    ensures KeyInv(s, ops + [op], key)
  {
    var d, all := After(s, ops), ops + [op];
    assert all[..|ops|] == ops && all[|ops|] == op;
    HoldsIsHit(s, ops, op.key, op.now);
    MissRemoves(d, s, op);
    WithoutFacts(d, op.key, key);
    if Lookup(After(s, all), key).Some? {
      NewerSize(After(s, all), key);
    }
  }

  lemma {:induction false} RunKeepsKey<V>(s: Settings, ops: seq<Op<V>>, now: real, key: string)
    requires s.enabled && ClockUpTo(ops, now)
    ensures KeyInv(s, ops, key)
    decreases |ops|
  {
    if ops != [] {
      var init, op := ops[..|ops| - 1], ops[|ops| - 1];
      assert ops == init + [op];
      SizeBounded(s, init);
      RunKeepsKey(s, init, op.now, key);
      RunKeepsKey(s, init, op.now, op.key);
      if Uses(s, init, op) {
        UseKeepsKey(s, init, op, key);
      } else {
        MissKeepsKey(s, init, op, key);
      }
    }
  }

  // ----- the guarantees -----

  /** After any run the size is at most max(8, limit), and a hit returns exactly the last response set for the key,
      at most max(1, ttl) old. */
  lemma HitsAreFresh<V>(s: Settings, ops: seq<Op<V>>, key: string, now: real)
    requires s.enabled && ClockUpTo(ops, now)
    ensures |After(s, ops)| <= 8 || |After(s, ops)| <= s.size
    ensures var r := CacheGet(After(s, ops), s, key, now, None).response;
            r.Some? ==> LastSet(ops, key).Some? && r.value == LastSet(ops, key).value.response &&
                        Young(s, now - LastSet(ops, key).value.created)
  {
    SizeBounded(s, ops);
    RunKeepsKey(s, ops, now, key);
  }

  lemma {:induction false} CrowdedHasRivals<V>(s: Settings, ops: seq<Op<V>>, key: string)
    ensures LiveRivals(s, ops, key) <= Rivals(s, ops, key)
    ensures Crowded(s, ops, key) ==> Full(s, |Rivals(s, ops, key)|)
  {
    if ops != [] {
      CrowdedHasRivals(s, ops[..|ops| - 1], key);
      SubsetSize(LiveRivals(s, ops, key), Rivals(s, ops, key));
      if Crowded(s, ops[..|ops| - 1], key) && Crowded(s, ops, key) {
        SubsetSize(Rivals(s, ops[..|ops| - 1], key), Rivals(s, ops, key));
      }
    }
  }

  /** A response young enough is returned as long as fewer than max(8, limit) other keys were set or hit since the
      key's own last use. */
  lemma NotEvictedEarly<V>(s: Settings, ops: seq<Op<V>>, key: string, now: real)
    requires s.enabled && ClockUpTo(ops, now) && LastSet(ops, key).Some?
    requires Young(s, now - LastSet(ops, key).value.created) && !Full(s, |Rivals(s, ops, key)|)
    ensures CacheGet(After(s, ops), s, key, now, None).response == Some(LastSet(ops, key).value.response)
  {
    RunKeepsKey(s, ops, now, key);
    CrowdedHasRivals(s, ops, key);
  }

  /** Over every run a get hits exactly when the operations before it say so: the key was set, its response is young
      enough, and it was never crowded out since its own last use. */
  lemma HitsExactly<V>(s: Settings, ops: seq<Op<V>>, key: string, now: real)
    requires s.enabled && ClockUpTo(ops, now)
    ensures CacheGet(After(s, ops), s, key, now, None).response.Some? <==> Hit(s, ops, key, now)
  {
    RunKeepsKey(s, ops, now, key);
    HoldsIsHit(s, ops, key, now);
  }

  /** A cache that is switched off holds and returns nothing. */
  lemma {:induction false} DisabledIsEmpty<V>(s: Settings, ops: seq<Op<V>>, key: string, now: real,
                                              fetched: Option<Entry<V>>)
    requires !s.enabled
    ensures After(s, ops) == [] && CacheGet(After(s, ops), s, key, now, fetched) == Got([], None)
  {
    if ops != [] {
      DisabledIsEmpty(s, ops[..|ops| - 1], key, now, fetched);
    }
  }

  /** After any run, a get that only the second tier can answer: it returns the fetched response exactly when that is
      young enough, and then holds it; and it drops the least recent entry exactly when the cache was full, also when
      the fetched one is too old and not kept. */
  lemma FetchedExactly<V>(s: Settings, ops: seq<Op<V>>, key: string, now: real, e: Entry<V>, other: string)
    requires s.enabled && Lookup(After(s, ops), key) == None && other != key
    ensures var d, got := After(s, ops), CacheGet(After(s, ops), s, key, now, Some(e));
            var young := Young(s, now - e.created);
            got.response == (if young then Some(e.response) else None) &&
            Lookup(got.dict, key) == (if young then Some(e) else None) &&
            (|got.dict| <= 8 || |got.dict| <= s.size) &&
            Lookup(got.dict, other) == if Full(s, |d|) && d[0].key == other then None else Lookup(d, other)
  {
    var d := After(s, ops);
    SizeBounded(s, ops);
    SnocFacts(d, Slot(key, e), key);
    SnocFacts(d, Slot(key, e), other);
    var all := d + [Slot(key, e)];
    TrimFacts(all, Limit(s), key);
    TrimFacts(all, Limit(s), other);
    var d1 := Newest(all, Limit(s));
    LastStays(d, Slot(key, e), Limit(s));
    WithoutFacts(d1, key, key);
    WithoutFacts(d1, key, other);
    SnocFacts(Without(d1, key), Slot(key, e), key);
    SnocFacts(Without(d1, key), Slot(key, e), other);
  }

  lemma {:induction false} NewerSize<V>(d: seq<Slot<V>>, key: string)
    requires DistinctKeys(d) && Lookup(d, key).Some?
    ensures |Newer(d, key)| < |d|
  {
    if d[0].key == key {
      KeySetSize(d[1..]);
    } else {
      NewerSize(d[1..], key);
    }
  }
}
