/** The browser-side cache of AI results (src/client/utils/aiCache.ts): one
    localStorage entry per (result type, owner, repository name), holding the
    data, the time it was stored and its lifetime.

    localStorage is a map from key to slot; a slot either parses as a cache
    item or does not (the empty string, or text that is not a cache item's
    JSON). The clock is the parameter `now`, in milliseconds. */
module AiCache {
  import opened Common

  /** The result types. `getKey` declares `analysis`, `description` and
      `guide`; the repository chat stores its history under `chat`
      (src/client/components/RepoChatInterface.tsx:55,70), so `chat` is a
      type here as well. */
  datatype AiType = Analysis | Description | Guide | Chat

  function TypeName(t: AiType): (r: string)
    ensures |r| > 0 && '-' !in r
  {
    match t
    case Analysis => "analysis"
    case Description => "description"
    case Guide => "guide"
    case Chat => "chat"
  }

  const AiPrefix: string := "ai-"

  /** 7 days in milliseconds. */
  const DefaultExpiry: int := 7 * 24 * 60 * 60 * 1000

  /** `getKey`. */
  function Key(t: AiType, owner: string, name: string): (r: string)
    ensures StartsWith(r, AiPrefix)
    ensures |r| == |AiPrefix| + |TypeName(t)| + 1 + |owner| + 1 + |name|
    ensures var k := |AiPrefix| + |TypeName(t)|;
      r[|AiPrefix|..k] == TypeName(t) && r[k] == '-'
      && r[k + 1..k + 1 + |owner|] == owner && r[k + 1 + |owner|] == '-'
      && r[k + 2 + |owner|..] == name
  {
    AiPrefix + TypeName(t) + "-" + owner + "-" + name
  }

  /** Like the disk cache's file name, the key is not injective: owner `a-b`
      with name `c` and owner `a` with name `b-c` share one entry. */
  lemma KeyCollides(t: AiType, o: string, x: string, y: string)
    ensures Key(t, o + "-" + x, y) == Key(t, o, x + "-" + y)
  {
    var p := AiPrefix + TypeName(t) + "-";
    calc {
      Key(t, o + "-" + x, y);
      p + (o + "-" + x) + "-" + y;
      { assert p + (o + "-" + x) + "-" + y == p + (o + "-" + x + "-" + y); }
      p + (o + "-" + x + "-" + y);
      { assert o + "-" + x + "-" + y == o + "-" + (x + "-" + y); }
      p + (o + "-" + (x + "-" + y));
      { assert p + o + "-" + (x + "-" + y) == p + (o + "-" + (x + "-" + y)); }
      Key(t, o, x + "-" + y);
    }
  }

  datatype Slot = Item(data: string, timestamp: int, expiresIn: int) | Unparsable(text: string)

  type Storage = map<string, Slot>

  /** `isExpired`: strictly older than the item's own lifetime. */
  predicate IsExpired(timestamp: int, expiresIn: int, now: int) {
    now - timestamp > expiresIn
  }

  /** `customExpiry || DEFAULT_EXPIRY`: an absent or zero lifetime becomes
      7 days; any other value, negative ones included, is kept. */
  function Lifetime(customExpiry: Option<int>): (r: int)
    ensures customExpiry.None? || customExpiry.value == 0 ==> r == DefaultExpiry
    ensures customExpiry.Some? && customExpiry.value != 0 ==> r == customExpiry.value
  {
    if customExpiry.Some? && customExpiry.value != 0 then customExpiry.value else DefaultExpiry
  }

  /** `get` removes the entry it reads when it is an expired item. */
  predicate Evicts(s: Storage, key: string, now: int) {
    key in s && s[key].Item? && IsExpired(s[key].timestamp, s[key].expiresIn, now)
  }

  /** What `get` returns for `key`: the data of a live item, and nothing for
      a missing entry, an unparsable one or an expired item. */
  function Cached(s: Storage, key: string, now: int): (r: Option<string>)
    ensures r.Some? <==> key in s && s[key].Item? && !IsExpired(s[key].timestamp, s[key].expiresIn, now)
    ensures r.Some? ==> r.value == s[key].data
  {
    if key !in s then None
    else match s[key]
      case Unparsable(_) => None
      case Item(data, timestamp, expiresIn) =>
        if IsExpired(timestamp, expiresIn, now) then None else Some(data)
  }

  /** `key.startsWith('ai-')`. */
  predicate IsAiKey(key: string)
    ensures IsAiKey(key) <==> StartsWith(key, AiPrefix)
  {
    |key| >= 3 && key[0] == 'a' && key[1] == 'i' && key[2] == '-'
  }

  /** The entries `clear` leaves: every key without the `ai-` prefix. */
  function NonAiEntries(s: Storage): (r: Storage)
    ensures forall key :: key in r <==> key in s && !IsAiKey(key)
    ensures forall key :: key in r ==> r[key] == s[key]
  {
    map key | key in s && !IsAiKey(key) :: s[key]
  }

  /** `key.split('-')[1]` for a key with the `ai-` prefix: the text after the
      prefix up to the next `-`. */
  function TypeSegment(key: string): string {
    if |key| >= 3 then FirstSegment(key[3..]) else ""
  }

  /** The text of `s` up to its first `-`. */
  function FirstSegment(s: string): string {
    if s == [] || s[0] == '-' then [] else [s[0]] + FirstSegment(s[1..])
  }

  /** The type segment of a key built by `getKey` is the result type's name,
      so `getStats` counts each stored result under its own type. */
  lemma {:induction false} TypeOfKey(t: AiType, owner: string, name: string)
    ensures TypeSegment(Key(t, owner, name)) == TypeName(t)
  {
    var key := Key(t, owner, name);
    var n := TypeName(t);
    assert key[|AiPrefix|..] == n + ("-" + owner + "-" + name);
    FirstSegmentOfWord(n, "-" + owner + "-" + name);
  }

  lemma {:induction false} FirstSegmentOfWord(w: string, rest: string)
    requires '-' !in w && |rest| > 0 && rest[0] == '-'
    ensures FirstSegment(w + rest) == w
  {
    if w == [] {
      assert (w + rest)[0] == '-';
    } else {
      assert (w + rest)[1..] == w[1..] + rest;
      FirstSegmentOfWord(w[1..], rest);
    }
  }

  /** The keys `getStats` counts in `total`. */
  function AiKeys(s: Storage): set<string> {
    set key | key in s && IsAiKey(key)
  }

  /** `getStats` counts an expired item, and an unparsable non-empty text (the
      parse throws); an empty text is skipped as falsy. */
  predicate CountsAsExpired(slot: Slot, now: int) {
    match slot
    case Item(_, timestamp, expiresIn) => IsExpired(timestamp, expiresIn, now)
    case Unparsable(text) => text != ""
  }

  function ExpiredAiKeys(s: Storage, now: int): set<string> {
    set key | key in s && IsAiKey(key) && CountsAsExpired(s[key], now)
  }

  /** The keys of `keys` whose segment is `t`. */
  function WithSegment(keys: set<string>, seg: string -> string, t: string): set<string> {
    set key | key in keys && seg(key) == t
  }

  /** The segments the keys carry. */
  function Segments(keys: set<string>, seg: string -> string): set<string> {
    set key | key in keys :: seg(key)
  }

  /** Counting keys by segment: for each segment of some key, the number of
      keys that carry it. */
  function GroupCounts(keys: set<string>, seg: string -> string): map<string, nat> {
    map t | t in Segments(keys, seg) :: |WithSegment(keys, seg, t)|
  }

  lemma SegmentsAdd(keys: set<string>, seg: string -> string, key: string)
    ensures Segments(keys + {key}, seg) == Segments(keys, seg) + {seg(key)}
  {
  }

  lemma WithSegmentAdd(keys: set<string>, seg: string -> string, key: string, t: string)
    requires key !in keys
    ensures |WithSegment(keys + {key}, seg, t)| == |WithSegment(keys, seg, t)| + (if seg(key) == t then 1 else 0)
  {
    if seg(key) == t {
      assert WithSegment(keys + {key}, seg, t) == WithSegment(keys, seg, t) + {key};
    } else {
      assert WithSegment(keys + {key}, seg, t) == WithSegment(keys, seg, t);
    }
  }

  lemma WithSegmentAbsent(keys: set<string>, seg: string -> string, t: string)
    requires t !in Segments(keys, seg)
    ensures WithSegment(keys, seg, t) == {}
  {
    forall key | key in keys ensures seg(key) != t {
      assert seg(key) in Segments(keys, seg);
    }
  }

  /** One more key adds one to the count of its segment, starting from zero
      for a segment not seen yet. */
  lemma GroupCountsAdd(keys: set<string>, seg: string -> string, key: string)
    requires key !in keys
    ensures var t0, m := seg(key), GroupCounts(keys, seg);
      GroupCounts(keys + {key}, seg) == m[t0 := (if t0 in m then m[t0] else 0) + 1]
  {
    var t0, m, m' := seg(key), GroupCounts(keys, seg), GroupCounts(keys + {key}, seg);
    var n := m[t0 := (if t0 in m then m[t0] else 0) + 1];
    SegmentsAdd(keys, seg, key);
    forall t | t in n ensures t in m' && m'[t] == n[t] {
      WithSegmentAdd(keys, seg, key, t);
      if t == t0 && t0 !in m {
        WithSegmentAbsent(keys, seg, t0);
      }
    }
    assert m'.Keys == n.Keys;
  }

  /** The `types` record of `getStats`: for each type segment of an `ai-`
      key, the number of `ai-` keys carrying it. */
  function TypeCounts(s: Storage): map<string, nat> {
    GroupCounts(AiKeys(s), TypeSegment)
  }

  /** The record `getStats` returns. */
  datatype Stats = Stats(total: nat, expired: nat, types: map<string, nat>)

  /** The record once the keys `done` have been visited. */
  function StatsIn(s: Storage, now: int, done: set<string>): Stats {
    Stats(|AiKeys(s) * done|, |ExpiredAiKeys(s, now) * done|, GroupCounts(AiKeys(s) * done, TypeSegment))
  }

  /** What the `types` record says: a type segment is present exactly when
      some `ai-` key carries it, with the number of such keys. */
  lemma TypeCountsMeaning(s: Storage, t: string)
    ensures t in TypeCounts(s) <==> exists key :: key in s && IsAiKey(key) && TypeSegment(key) == t
    ensures t in TypeCounts(s) ==> TypeCounts(s)[t] == |WithSegment(AiKeys(s), TypeSegment, t)| >= 1
  {
    if t in TypeCounts(s) {
      var key :| key in AiKeys(s) && TypeSegment(key) == t;
      assert key in WithSegment(AiKeys(s), TypeSegment, t);
    }
    if exists key :: key in s && IsAiKey(key) && TypeSegment(key) == t {
      var key :| key in s && IsAiKey(key) && TypeSegment(key) == t;
      assert key in AiKeys(s);
    }
  }

  /** A stored result is counted under its own type's name. */
  lemma StoredResultIsCounted(s: Storage, t: AiType, owner: string, name: string, slot: Slot)
    ensures TypeName(t) in TypeCounts(s[Key(t, owner, name) := slot])
  {
    var s' := s[Key(t, owner, name) := slot];
    TypeOfKey(t, owner, name);
    TypeCountsMeaning(s', TypeName(t));
  }

  class AICache {
    /** The browser's localStorage, keys of every origin's code included. */
    var storage: Storage

    constructor (existing: Storage)
      ensures storage == existing
    {
      storage := existing;
    }

    /** `set`: stores the item under its key, stamped with `now` and the
        lifetime `customExpiry || DEFAULT_EXPIRY`. A storage error (a full
        quota, `quotaOk` false) is swallowed and nothing changes. */
    method Set(t: AiType, owner: string, name: string, data: string, customExpiry: Option<int>, now: int, quotaOk: bool)
      modifies this
      ensures quotaOk ==> storage == old(storage)[Key(t, owner, name) := Item(data, now, Lifetime(customExpiry))]
      ensures !quotaOk ==> storage == old(storage)
    {
      if !quotaOk {
        return;
      }
      var key := Key(t, owner, name);
      var expiresIn := if customExpiry.Some? && customExpiry.value != 0 then customExpiry.value else DefaultExpiry;
      storage := storage[key := Item(data, now, expiresIn)];
    }

    /** `get`: nothing for a missing entry or an unparsable one; an expired
        item is removed and gives nothing; otherwise the stored data. */
    method Get(t: AiType, owner: string, name: string, now: int) returns (r: Option<string>)
      modifies this
      ensures r == Cached(old(storage), Key(t, owner, name), now)
      ensures storage == if Evicts(old(storage), Key(t, owner, name), now)
                         then old(storage) - {Key(t, owner, name)} else old(storage)
    {
      var key := Key(t, owner, name);
      if key !in storage {
        return None;
      }
      match storage[key]
      case Unparsable(_) =>
        r := None;
      case Item(data, timestamp, expiresIn) =>
        if now - timestamp > expiresIn {
          Remove(t, owner, name);
          return None;
        }
        r := Some(data);
    }

    /** `remove`: deletes exactly this result's entry. */
    method Remove(t: AiType, owner: string, name: string)
      modifies this
      ensures storage == old(storage) - {Key(t, owner, name)}
    {
      storage := storage - {Key(t, owner, name)};
    }

    /** `clear`: removes every `ai-` entry and keeps every other one. */
    method Clear()
      modifies this
      ensures storage == NonAiEntries(old(storage))
    {
      ghost var s := storage;
      var keys := storage.Keys;
      var done: set<string> := {};
      while done != keys
        invariant keys == s.Keys && done <= keys
        invariant forall key :: key in storage <==> key in s && !(key in done && IsAiKey(key))
        invariant forall key :: key in storage ==> storage[key] == s[key]
        decreases |keys - done|
      {
        var key :| key in keys - done;
        if IsAiKey(key) {
          storage := storage - {key};
        }
        assert keys - (done + {key}) < keys - done;
        done := done + {key};
      }
    }

    /** `getStats`: the number of `ai-` entries, how many of them are expired
        or unparsable, and for each type segment the number of entries
        carrying it. */
    method GetStats(now: int) returns (stats: Stats)
      ensures stats.total == |AiKeys(storage)|
      ensures stats.expired == |ExpiredAiKeys(storage, now)|
      ensures stats.types == TypeCounts(storage)
    {
      var s := storage;
      var keys := s.Keys;
      var done: set<string> := {};
      stats := Stats(0, 0, map[]);
      assert AiKeys(s) * done == {};
      assert GroupCounts({}, TypeSegment) == map[];
      while done != keys
        invariant keys == s.Keys && done <= keys
        invariant stats == StatsIn(s, now, done)
        decreases |keys - done|
      {
        var key :| key in keys - done;
        StatsStep(s, now, done, key);
        stats := CountKey(key, s[key], now, stats);
        assert keys - (done + {key}) < keys - done;
        done := done + {key};
      }
      StatsComplete(s, now, done);
    }
  }

  /** One turn of the `getStats` loop: an `ai-` key adds one to `total` and
      to its type's count, and one to `expired` when it is an expired item or
      an unparsable non-empty text; any other key is skipped. */
  method CountKey(key: string, slot: Slot, now: int, stats0: Stats) returns (stats: Stats)
    ensures stats == if IsAiKey(key) then AddKey(stats0, TypeSegment(key), CountsAsExpired(slot, now)) else stats0
  {
    if !IsAiKey(key) {
      return stats0;
    }
    var total, expired, types := stats0.total + 1, stats0.expired, stats0.types;
    var t := TypeSegment(key);
    types := types[t := (if t in types then types[t] else 0) + 1];
    match slot {
      case Item(_, timestamp, expiresIn) =>
        if now - timestamp > expiresIn {
          expired := expired + 1;
        }
      case Unparsable(text) =>
        if text != "" {
          expired := expired + 1;
        }
    }
    stats := Stats(total, expired, types);
  }

  /** A key outside the `ai-` namespace changes none of the counts. */
  lemma StatsSkip(s: Storage, now: int, done: set<string>, key: string)
    requires !IsAiKey(key)
    ensures StatsIn(s, now, done + {key}) == StatsIn(s, now, done)
  {
    assert AiKeys(s) * (done + {key}) == AiKeys(s) * done;
    assert ExpiredAiKeys(s, now) * (done + {key}) == ExpiredAiKeys(s, now) * done;
  }

  /** The counts after one more `ai-` key of type segment `t`. */
  function AddKey(st: Stats, t: string, expired: bool): Stats {
    Stats(st.total + 1,
          st.expired + (if expired then 1 else 0),
          st.types[t := (if t in st.types then st.types[t] else 0) + 1])
  }

  /** An `ai-` key adds one to the total, one to the expired count when it
      counts as expired, and one to the count of its type segment. */
  lemma StatsAdd(s: Storage, now: int, done: set<string>, key: string)
    requires key in s && key !in done && IsAiKey(key)
    ensures StatsIn(s, now, done + {key}) == AddKey(StatsIn(s, now, done), TypeSegment(key), CountsAsExpired(s[key], now))
  {
    CountStep(AiKeys(s), done, key);
    CountStep(ExpiredAiKeys(s, now), done, key);
    assert AiKeys(s) * (done + {key}) == AiKeys(s) * done + {key};
    GroupCountsAdd(AiKeys(s) * done, TypeSegment, key);
  }

  /** Visiting one more storage key moves the counts over `done` to the
      counts over `done + {key}`. */
  lemma StatsStep(s: Storage, now: int, done: set<string>, key: string)
    requires key in s && key !in done
    ensures StatsIn(s, now, done + {key}) ==
      if IsAiKey(key) then AddKey(StatsIn(s, now, done), TypeSegment(key), CountsAsExpired(s[key], now))
      else StatsIn(s, now, done)
  {
    if IsAiKey(key) {
      StatsAdd(s, now, done, key);
    } else {
      StatsSkip(s, now, done, key);
    }
  }

  /** Once every key has been visited, the partial counts are the totals. */
  lemma StatsComplete(s: Storage, now: int, done: set<string>)
    requires done == s.Keys
    ensures AiKeys(s) * done == AiKeys(s)
    ensures ExpiredAiKeys(s, now) * done == ExpiredAiKeys(s, now)
  {
  }

  /** The sum of a count map's values. */
  ghost function MapSum(m: map<string, nat>): nat
    decreases |m|
  {
    if m == map[] then 0
    else
      assert exists k :: k in m by {
        assert m.Keys != {};
        var k :| k in m.Keys;
      }
      var k :| k in m;
      m[k] + MapSum(m - {k})
  }

  /** The sum does not depend on which key is taken out first. */
  lemma {:induction false} MapSumRemove(m: map<string, nat>, k: string)
    requires k in m
    ensures MapSum(m) == m[k] + MapSum(m - {k})
    decreases |m|
  {
    var j :| j in m && MapSum(m) == m[j] + MapSum(m - {j});
    if j != k {
      MapSumRemove(m - {j}, k);
      MapSumRemove(m - {k}, j);
      assert m - {j} - {k} == m - {k} - {j};
    }
  }

  /** Adding one to a count, or creating it at 1, adds one to the sum. */
  lemma MapSumBump(m: map<string, nat>, t: string)
    ensures MapSum(m[t := (if t in m then m[t] else 0) + 1]) == MapSum(m) + 1
  {
    var m' := m[t := (if t in m then m[t] else 0) + 1];
    MapSumRemove(m', t);
    assert m' - {t} == m - {t};
    if t in m {
      MapSumRemove(m, t);
    } else {
      assert m - {t} == m;
    }
  }

  /** Every key is counted under exactly one segment, so the counts add up
      to the number of keys. */
  lemma {:induction false} GroupCountsSum(keys: set<string>, seg: string -> string)
    ensures MapSum(GroupCounts(keys, seg)) == |keys|
    decreases |keys|
  {
    if keys == {} {
      assert GroupCounts(keys, seg) == map[];
    } else {
      var key :| key in keys;
      var rest := keys - {key};
      GroupCountsSum(rest, seg);
      GroupCountsAdd(rest, seg, key);
      assert rest + {key} == keys;
      MapSumBump(GroupCounts(rest, seg), seg(key));
    }
  }

  /** `getStats`: the per-type counts add up to `total`, and `expired` never
      exceeds `total`. */
  lemma StatsConsistent(s: Storage, now: int)
    ensures MapSum(TypeCounts(s)) == |AiKeys(s)|
    ensures |ExpiredAiKeys(s, now)| <= |AiKeys(s)|
  {
    GroupCountsSum(AiKeys(s), TypeSegment);
    assert ExpiredAiKeys(s, now) <= AiKeys(s);
    CardSubset(ExpiredAiKeys(s, now), AiKeys(s));
  }

  lemma CardSubset(a: set<string>, b: set<string>)
    requires a <= b
    ensures |a| <= |b|
  {
    assert b == a + (b - a);
  }

  /** Round trip: `set` then `get` of the same result within its lifetime
      returns the data. */
  lemma StoreThenGet(s: Storage, t: AiType, owner: string, name: string, data: string, customExpiry: Option<int>, t0: int, now: int)
    requires now - t0 <= Lifetime(customExpiry)
    ensures Cached(s[Key(t, owner, name) := Item(data, t0, Lifetime(customExpiry))], Key(t, owner, name), now) == Some(data)
  {
  }

  /** Storing under one result type leaves the other types' entries for the
      same repository untouched. */
  lemma TypesAreSeparate(s: Storage, t: AiType, u: AiType, owner: string, name: string, item: Slot, now: int)
    requires t != u
    ensures Cached(s[Key(t, owner, name) := item], Key(u, owner, name), now) == Cached(s, Key(u, owner, name), now)
  {
    TypeOfKey(t, owner, name);
    TypeOfKey(u, owner, name);
    assert TypeName(t) != TypeName(u);
  }

  /** After `clear` no AI result can be read back, and only `ai-` entries
      were removed. */
  lemma ClearForgetsResults(s: Storage, t: AiType, owner: string, name: string, now: int)
    ensures Cached(NonAiEntries(s), Key(t, owner, name), now) == None
    ensures AiKeys(NonAiEntries(s)) == {}
  {
  }

  /** A zero lifetime is not "expire at once": it is replaced by 7 days, so
      an item stored with `customExpiry` 0 is still returned a day later. */
  lemma ZeroLifetimeMeansDefault(s: Storage, t: AiType, owner: string, name: string, data: string, t0: int)
    ensures Cached(s[Key(t, owner, name) := Item(data, t0, Lifetime(Some(0)))], Key(t, owner, name), t0 + 24 * 60 * 60 * 1000) == Some(data)
  {
  }

  /** Round trip through the class: `set` then `get` within the lifetime
      returns the data, and an expired item is gone after one `get`. */
  method SetThenGet(cache: AICache, t: AiType, owner: string, name: string, data: string, customExpiry: Option<int>, t0: int, t1: int)
    returns (r: Option<string>, present: bool)
    modifies cache
    ensures t1 - t0 <= Lifetime(customExpiry) ==> r == Some(data) && present
    ensures t1 - t0 > Lifetime(customExpiry) ==> r == None && !present
  {
    cache.Set(t, owner, name, data, customExpiry, t0, true);
    r := cache.Get(t, owner, name, t1);
    present := Key(t, owner, name) in cache.storage;
  }
}
