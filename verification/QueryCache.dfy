/** The agent's response cache: an ordered dictionary bounded in size and age, most recently used last. */
module QueryCache {
  import opened Options
  import opened Lists

  datatype Entry<V> = Entry(created: real, response: V)

  datatype Slot<V> = Slot(key: string, entry: Entry<V>)

  datatype Settings = Settings(enabled: bool, ttl: int, size: int)

  function Limit(s: Settings): nat {
    if s.size < 8 then 8 else s.size
  }

  function MaxAge(s: Settings): real {
    if s.ttl < 1 then 1.0 else s.ttl as real
  }

  // ----- the ordered dictionary as a value -----

  function Keys<V>(d: seq<Slot<V>>): seq<string> {
    seq(|d|, i requires 0 <= i < |d| => d[i].key)
  }

  function Lookup<V>(d: seq<Slot<V>>, key: string): Option<Entry<V>> {
    if d == [] then None else if d[0].key == key then Some(d[0].entry) else Lookup(d[1..], key)
  }

  function Without<V>(d: seq<Slot<V>>, key: string): seq<Slot<V>> {
    if d == [] then [] else (if d[0].key == key then [] else [d[0]]) + Without(d[1..], key)
  }

  /** The entry under the key becomes the most recent one. */
  function AtEnd<V>(d: seq<Slot<V>>, key: string, e: Entry<V>): seq<Slot<V>> {
    Without(d, key) + [Slot(key, e)]
  }

  /** Drops the least recent entries beyond the limit. */
  function Newest<V>(d: seq<Slot<V>>, limit: nat): seq<Slot<V>> {
    if |d| > limit then d[|d| - limit..] else d
  }

  datatype Got<V> = Got(dict: seq<Slot<V>>, response: Option<V>)

  /** `_cache_get` at a time; `fetched` is what the second tier holds, None without one. */
  function CacheGet<V>(d: seq<Slot<V>>, s: Settings, key: string, now: real, fetched: Option<Entry<V>>): Got<V> {
    if !s.enabled then Got(d, None)
    else
      var held := Lookup(d, key);
      if held == None && fetched == None then Got(d, None)
      else
        var e := if held.Some? then held.value else fetched.value;
        var d1 := if held.Some? then d else Newest(d + [Slot(key, e)], Limit(s));
        if now - e.created > MaxAge(s) then Got(Without(d1, key), None)
        else Got(AtEnd(d1, key, e), Some(e.response))
  }

  /** `_cache_set` at a time. */
  function CacheSet<V>(d: seq<Slot<V>>, s: Settings, key: string, now: real, response: V): seq<Slot<V>> {
    if !s.enabled then d else Newest(AtEnd(d, key, Entry(now, response)), Limit(s))
  }

  // ----- the cache object -----

  class ResponseCache<V(==)> {
    const settings: Settings
    var dict: seq<Slot<V>>

    constructor (settings: Settings)
      ensures dict == [] && this.settings == settings
    {
      this.settings, dict := settings, [];
    }

    method Trim()
      modifies this
      ensures dict == Newest(old(dict), Limit(settings))
    {
      while |dict| > Limit(settings)
        invariant Newest(dict, Limit(settings)) == Newest(old(dict), Limit(settings))
      {
        dict := dict[1..];
      }
    }

    method MoveToEnd(key: string)
      requires Lookup(dict, key).Some?
      modifies this
      ensures dict == AtEnd(old(dict), key, Lookup(old(dict), key).value)
    {
      var e := Lookup(dict, key).value;
      dict := Without(dict, key) + [Slot(key, e)];
    }

    method Get(key: string, now: real, fetched: Option<Entry<V>>) returns (r: Option<V>)
      modifies this
      ensures Got(dict, r) == CacheGet(old(dict), settings, key, now, fetched)
    {
      if !settings.enabled {
        return None;
      }
      var entry := Lookup(dict, key);
      if entry == None {
        entry := fetched;
        if entry == None {
          return None;
        }
        dict := dict + [Slot(key, entry.value)];
        Trim();
        LastStays(old(dict), Slot(key, entry.value), Limit(settings));
      }
      if now - entry.value.created > MaxAge(settings) {
        dict := Without(dict, key);
        return None;
      }
      MoveToEnd(key);
      r := Some(entry.value.response);
    }

    method Set(key: string, now: real, response: V)
      modifies this
      ensures dict == CacheSet(old(dict), settings, key, now, response)
    {
      if !settings.enabled {
        return;
      }
      var e := Entry(now, response);
      if Lookup(dict, key).Some? {
        dict := Without(dict, key) + [Slot(key, e)];
      } else {
        WithoutAbsent(dict, key);
        dict := dict + [Slot(key, e)];
      }
      Trim();
    }
  }

  // ----- dictionary facts -----

  lemma {:induction false} WithoutAbsent<V>(d: seq<Slot<V>>, key: string)
    requires Lookup(d, key) == None
    ensures Without(d, key) == d
  {
    if d != [] {
      WithoutAbsent(d[1..], key);
    }
  }

  lemma {:induction false} LookupAppend<V>(a: seq<Slot<V>>, b: seq<Slot<V>>, key: string)
    ensures Lookup(a + b, key) == if Lookup(a, key).Some? then Lookup(a, key) else Lookup(b, key)
  {
    if a == [] {
      NilSeq(b);
    } else {
      LookupAppend(a[1..], b, key);
      assert (a + b)[1..] == a[1..] + b;
    }
  }

  /** A new last entry survives the trimming and is found. */
  lemma LastStays<V>(d: seq<Slot<V>>, s: Slot<V>, limit: nat)
    requires Lookup(d, s.key) == None && limit > 0
    ensures Lookup(Newest(d + [s], limit), s.key) == Some(s.entry)
  {
    var all := d + [s];
    var n := if |all| > limit then |all| - limit else 0;
    assert Newest(all, limit) == d[n..] + [s];
    LookupSuffix(d, n, s.key);
    LookupAppend(d[n..], [s], s.key);
  }

  lemma {:induction false} LookupSuffix<V>(d: seq<Slot<V>>, n: nat, key: string)
    requires n <= |d| && Lookup(d, key) == None
    ensures Lookup(d[n..], key) == None
  {
    if n > 0 {
      LookupSuffix(d[1..], n - 1, key);
      assert d[1..][n - 1..] == d[n..];
    }
  }
}
