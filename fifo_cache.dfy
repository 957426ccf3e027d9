/** The bounded insertion-ordered audio caches: `wordAudioCache` in
    src/lib/voice/client.ts and `audioCache` in src/app/api/tts/speak/route.ts.
    Both are a JavaScript `Map` (which remembers insertion order) that drops its
    first-inserted key once it holds more than 500 entries. */
module FifoCache {
  import opened Bytes
  import opened Wrappers

  const MaxEntries: nat := 500

  /** The map's entries and its keys in insertion order. */
  datatype CacheState = CacheState(entries: map<string, seq<byte>>, order: seq<string>)

  predicate Distinct(s: seq<string>) {
    forall i, j :: 0 <= i < j < |s| ==> s[i] != s[j]
  }

  /** `order` lists every key exactly once. */
  ghost predicate Consistent(c: CacheState) {
    && Distinct(c.order)
    && (forall k :: k in c.entries <==> k in c.order)
    && |c.entries| == |c.order|
  }

  /** A consistent state within the bound. */
  ghost predicate WellFormed(c: CacheState) {
    Consistent(c) && |c.order| <= MaxEntries
  }

  const Empty: CacheState := CacheState(map[], [])

  lemma DistinctTail(s: seq<string>)
    requires Distinct(s) && |s| > 0
    ensures Distinct(s[1..])
    ensures forall k :: k in s[1..] <==> k in s && k != s[0]
  {
    forall k | k in s && k != s[0] ensures k in s[1..] {
      var i :| 0 <= i < |s| && s[i] == k;
      assert s[1..][i - 1] == k;
    }
  }

  /** `set` of a key the map does not hold: it goes last. */
  function Appended(c: CacheState, key: string, value: seq<byte>): (r: CacheState)
    requires Consistent(c) && key !in c.entries
    ensures Consistent(r) && r.order == c.order + [key]
    ensures r.entries == c.entries[key := value]
  {
    CacheState(c.entries[key := value], c.order + [key])
  }

  /** `delete` of the first key in insertion order. */
  function EvictOldest(c: CacheState): (r: CacheState)
    requires Consistent(c) && |c.order| > 0
    ensures Consistent(r) && r.order == c.order[1..]
    ensures c.order[0] !in r.entries
    ensures forall k :: k in r.entries ==> k in c.entries && r.entries[k] == c.entries[k]
    ensures forall k :: k in c.entries && k != c.order[0] ==> k in r.entries
  {
    var first := c.order[0];
    DistinctTail(c.order);
    assert (c.entries - {first}).Keys == c.entries.Keys - {first};
    CacheState(c.entries - {first}, c.order[1..])
  }

  /** `cache.set(key, value)` followed by `cache.delete(firstKey)` when the size
      then exceeds 500. An existing key keeps its place; a new key goes last; the
      only key ever evicted is the oldest one, and only by a new key arriving
      at a full cache. */
  function Stored(c: CacheState, key: string, value: seq<byte>): (r: CacheState)
    requires WellFormed(c)
    ensures WellFormed(r)
    ensures key in r.entries && r.entries[key] == value
    ensures forall k :: k in r.entries && k != key ==> k in c.entries && r.entries[k] == c.entries[k]
    ensures key in c.entries ==> r.order == c.order
    ensures key !in c.entries && |c.order| < MaxEntries ==> r.order == c.order + [key]
    ensures key !in c.entries && |c.order| == MaxEntries ==> r.order == c.order[1..] + [key]
    ensures forall k :: k in c.entries && k !in r.entries ==>
      key !in c.entries && |c.order| == MaxEntries && k == c.order[0]
  {
    if key in c.entries then
      CacheState(c.entries[key := value], c.order)
    else
      var grown := Appended(c, key, value);
      if |grown.entries| > MaxEntries then
        assert grown.order[1..] == c.order[1..] + [key];
        EvictOldest(grown)
      else grown
  }

  /** Storing the given keys one after another, all with the same value. */
  function StoreAll(c: CacheState, keys: seq<string>, value: seq<byte>): (r: CacheState)
    requires WellFormed(c)
    ensures WellFormed(r)
    decreases |keys|
  {
    if keys == [] then c else StoreAll(Stored(c, keys[0], value), keys[1..], value)
  }

  /** Fresh distinct keys that still fit are appended in order and evict nothing. */
  lemma {:induction false} StoreAllFits(c: CacheState, keys: seq<string>, value: seq<byte>)
    requires WellFormed(c) && Distinct(c.order + keys) && |c.order| + |keys| <= MaxEntries
    ensures StoreAll(c, keys, value).order == c.order + keys
    decreases |keys|
  {
    if keys != [] {
      FreshHead(c, keys);
      StoreAllFits(Stored(c, keys[0], value), keys[1..], value);
    }
  }

  /** The first of the keys is new to the cache, and moving it onto the order
      leaves the concatenation as it was. */
  lemma FreshHead(c: CacheState, keys: seq<string>)
    requires Consistent(c) && Distinct(c.order + keys) && keys != []
    ensures keys[0] !in c.entries
    ensures (c.order + [keys[0]]) + keys[1..] == c.order + keys
  {
    var all := c.order + keys;
    assert all[|c.order|] == keys[0];
    forall i | 0 <= i < |c.order| ensures c.order[i] != keys[0] {
      assert all[i] == c.order[i];
    }
  }


  /** Storing 501 distinct keys into an empty cache leaves exactly 500 entries:
      every key but the first. */
  lemma {:induction false} FirstKeyEvictedAfterOverflow(keys: seq<string>, value: seq<byte>)
    requires Distinct(keys) && |keys| == MaxEntries + 1
    ensures var r := StoreAll(Empty, keys, value);
      |r.entries| == MaxEntries && keys[0] !in r.entries && r.order == keys[1..]
  {
    var front, last := keys[..MaxEntries], keys[MaxEntries];
    assert keys == front + [last];
    assert Empty.order + front == front;
    StoreAllFits(Empty, front, value);
    StoreAllSplit(Empty, front, [last], value);
    StoreIntoFull(StoreAll(Empty, front, value), last, value);
    assert front[1..] + [last] == keys[1..];
  }

  /** One fresh key stored into a full cache replaces the oldest one. */
  lemma StoreIntoFull(full: CacheState, last: string, value: seq<byte>)
    requires WellFormed(full) && |full.order| == MaxEntries && last !in full.order
    ensures var r := StoreAll(full, [last], value);
      |r.entries| == MaxEntries && full.order[0] !in r.entries && r.order == full.order[1..] + [last]
  {
    var r := Stored(full, last, value);
    assert StoreAll(full, [last], value) == StoreAll(r, [], value) == r;
  }

  lemma {:induction false} StoreAllSplit(c: CacheState, a: seq<string>, b: seq<string>, value: seq<byte>)
    requires WellFormed(c)
    ensures StoreAll(c, a + b, value) == StoreAll(StoreAll(c, a, value), b, value)
    decreases |a|
  {
    if a != [] {
      assert (a + b)[0] == a[0] && (a + b)[1..] == a[1..] + b;
      StoreAllSplit(Stored(c, a[0], value), a[1..], b, value);
    } else {
      assert a + b == b;
    }
  }

  /** `k` is among the `m` most recently inserted keys. */
  predicate Recent(c: CacheState, k: string, m: nat) {
    exists i :: 0 <= i < |c.order| && c.order[i] == k && |c.order| - i <= m
  }

  /** A key just inserted is the most recent one. */
  lemma StoredIsRecent(c: CacheState, key: string, value: seq<byte>)
    requires WellFormed(c) && key !in c.entries
    ensures Recent(Stored(c, key, value), key, 1)
  {
    var r := Stored(c, key, value);
    assert r.order[|r.order| - 1] == key;
  }

  /** A key among the m most recent stays in the cache through one more store,
      and is then among the m + 1 most recent, as long as m is below the bound:
      the only key a store evicts is the oldest of 500. */
  lemma StoredKeepsRecent(c: CacheState, key: string, value: seq<byte>, k: string, m: nat)
    requires WellFormed(c) && Recent(c, k, m) && m < MaxEntries
    ensures k in c.entries
    ensures Recent(Stored(c, key, value), k, m + 1)
    ensures k in Stored(c, key, value).entries
  {
    RecentAfterStore(c, Stored(c, key, value), key, k, m);
  }

  /** The same on the key order alone: storing keeps the order, appends the key,
      or drops the oldest and appends the key. */
  lemma RecentAfterStore(c: CacheState, r: CacheState, key: string, k: string, m: nat)
    requires Recent(c, k, m) && m < MaxEntries && |c.order| <= MaxEntries
    requires || r.order == c.order
             || r.order == c.order + [key]
             || (|c.order| == MaxEntries && r.order == c.order[1..] + [key])
    ensures k in c.order && k in r.order && Recent(r, k, m + 1)
  {
    var i :| 0 <= i < |c.order| && c.order[i] == k && |c.order| - i <= m;
    if r.order == c.order || r.order == c.order + [key] {
      assert r.order[i] == k;
    } else {
      assert r.order[i - 1] == k;
    }
  }


  /** The newest `MaxEntries` keys of an insertion sequence. */
  function Newest(keys: seq<string>): (r: seq<string>)
    ensures |r| <= MaxEntries
    ensures forall k :: k in r ==> k in keys
  {
    if |keys| <= MaxEntries then keys else keys[|keys| - MaxEntries..]
  }

  /** Storing a key the cache does not hold keeps the newest 500 of the order
      extended by that key. */
  lemma StoredFresh(c: CacheState, key: string, value: seq<byte>)
    requires WellFormed(c) && key !in c.entries
    ensures Stored(c, key, value).order == Newest(c.order + [key])
  {
    if |c.order| == MaxEntries {
      assert (c.order + [key])[1..] == c.order[1..] + [key];
    }
  }

  /** Taking the newest 500 before or after appending one key is the same. */
  lemma NewestAppend(keys: seq<string>, k: string)
    ensures Newest(Newest(keys) + [k]) == Newest(keys + [k])
  {
    if |keys| > MaxEntries {
      var n := |keys|;
      assert (keys[n - MaxEntries..] + [k])[1..] == keys[n - MaxEntries + 1..] + [k];
      assert (keys + [k])[n + 1 - MaxEntries..] == keys[n + 1 - MaxEntries..] + [k];
    }
  }

  /** A module-level cache object, updated in place by its callers. */
  class Cache {
    var entries: map<string, seq<byte>>
    var order: seq<string>

    ghost predicate Valid()
      reads this
    {
      WellFormed(State())
    }

    function State(): CacheState
      reads this
    {
      CacheState(entries, order)
    }

    /** `new Map()`. */
    constructor ()
      ensures Valid() && State() == Empty
    {
      entries := map[];
      order := [];
    }

    /** `cache.get(key)`. */
    method Get(key: string) returns (r: Option<seq<byte>>)
      ensures r.Some? <==> key in entries
      ensures r.Some? ==> r.value == entries[key]
    {
      r := if key in entries then Some(entries[key]) else None;
    }

    /** `cache.set(key, value)`, then `delete` of the first key of `keys()` when
        `size` exceeds the bound. */
    method Store(key: string, value: seq<byte>)
      requires Valid()
      modifies this
      ensures Valid() && State() == Stored(old(State()), key, value)
    {
      if key in entries {
        entries := entries[key := value];
      } else {
        entries, order := entries[key := value], order + [key];
        if |entries| > MaxEntries {
          var firstKey := order[0];
          assert State() == Appended(old(State()), key, value);
          entries, order := entries - {firstKey}, order[1..];
          assert State() == EvictOldest(Appended(old(State()), key, value));
        }
      }
    }
  }
}
