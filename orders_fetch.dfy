/** The orders service's cache-first lookups of products and users
    (`get_products_by_ids`, orders/orders.py:113-150, and its twin
    `get_users_by_ids`, orders/orders.py:175-208). The two remote endpoints are
    oracle parameters: what the batch endpoint answers (None when it fails) and
    what the single-item endpoint answers for each id. */
module OrdersFetch {
  import opened Text
  import opened TtlCache

  /** A JSON object from the products or users service, reduced to the fields
      the orders service reads. */
  datatype Doc = Doc(id: int, name: Option<string>, price: Option<int>)

  /** The cached value: a document, or None for "the service had no such id". */
  type Cached = Option<Doc>

  /** Which service an id belongs to. */
  datatype Kind = Product | User

  /** A cache key: `f"product:{pid}"` or `f"user:{uid}"`, kept apart from its
      spelling, which KeyText gives and KeyTextInjective shows loses nothing. */
  datatype Key = Key(kind: Kind, id: int)

  type Dict = map<Key, Entry<Cached>>

  /** The `ttl` both lookups give `cache_set` for a fetched id. */
  const FetchTtl: int := 30

  /** The key as the service spells it. */
  function KeyText(k: Key): string {
    (if k.kind == Product then "product:" else "user:") + IntToString(k.id)
  }

  /** An id whose `cache_get` is not None: an unexpired entry holding a document.
      An entry that holds None counts as a miss. */
  predicate IsHit(m: Dict, key: Key, now: int) {
    key in m && now <= m[key].expiry && m[key].value.Some?
  }

  /** The distinct ids of a list: `set(ids)`. */
  function Elems(xs: seq<int>): set<int> {
    set x | x in xs
  }

  /** The ids that end up in `to_fetch`. */
  function Misses(m: Dict, kind: Kind, ids: set<int>, now: int): set<int> {
    set pid | pid in ids && !IsHit(m, Key(kind, pid), now)
  }

  /** What the remote side answers for one id: the batch endpoint's dictionary
      when it answered (`batch.get(pid)`), else the single-item endpoint. */
  function Remote(batch: Option<map<int, Doc>>, single: map<int, Doc>, pid: int): Cached {
    var source := if batch.Some? then batch.value else single;
    if pid in source then Some(source[pid]) else None
  }

  /** The cache entries written for the fetched ids. */
  function FreshEntries(kind: Kind, pids: set<int>, batch: Option<map<int, Doc>>, single: map<int, Doc>, now: int): Dict
  {
    map pid | pid in pids :: Key(kind, pid) := Entry(now + FetchTtl, Remote(batch, single, pid))
  }

  /** The cached values of the given ids. */
  function CachedValues(m: Dict, kind: Kind, pids: set<int>): map<int, Cached> {
    map pid | pid in pids && Key(kind, pid) in m :: m[Key(kind, pid)].value
  }

  /** The answers of the remote side for the fetched ids. */
  function RemoteAnswers(pids: set<int>, batch: Option<map<int, Doc>>, single: map<int, Doc>): map<int, Cached> {
    map pid | pid in pids :: Remote(batch, single, pid)
  }

  /** The dictionary the lookup returns. */
  function Answer(m: Dict, kind: Kind, ids: set<int>, now: int, batch: Option<map<int, Doc>>, single: map<int, Doc>): map<int, Cached>
  {
    map pid | pid in ids :: if IsHit(m, Key(kind, pid), now) then m[Key(kind, pid)].value else Remote(batch, single, pid)
  }

  /** `get_products_by_ids(ids)` (kind Product) and `get_users_by_ids(ids)`
      (kind User). The parallel fallback is run here one id after the other;
      as every id has its own key, the order does not matter. */
  method GetByIds(cache: Cache<Key, Cached>, kind: Kind, ids: seq<int>, now: int,
                  batch: Option<map<int, Doc>>, single: map<int, Doc>)
    returns (result: map<int, Cached>, ghost fetched: set<int>)
    modifies cache
    ensures fetched == Misses(old(cache.entries), kind, Elems(ids), now)
    ensures result == Answer(old(cache.entries), kind, Elems(ids), now, batch, single)
    ensures cache.entries == old(cache.entries) + FreshEntries(kind, fetched, batch, single, now)
  {
    ghost var m0 := cache.entries;
    ghost var unique := Elems(ids);
    var hits, toFetch := CheckCache(cache, kind, ids, now);
    fetched := Elems(toFetch);
    Assemble(m0, kind, unique, now, batch, single);
    if toFetch == [] {
      NothingExpired(m0, kind, unique, now, batch, single);
      AllHitsAnswer(m0, kind, unique, now, batch, single);
      assert unique - {} == unique;
      return hits, fetched;
    }
    // The batch endpoint when it answered, else the single-item fetches.
    result := StoreFetched(cache, kind, toFetch, now, batch, single, hits);
  }

  /** How the two loops' results make up the lookup's. */
  lemma Assemble(m0: Dict, kind: Kind, ids: set<int>, now: int, batch: Option<map<int, Doc>>, single: map<int, Doc>)
    ensures var missed := Misses(m0, kind, ids, now); var f := FreshEntries(kind, missed, batch, single, now);
      CachedValues(m0, kind, ids - missed) + RemoteAnswers(missed, batch, single) == Answer(m0, kind, ids, now, batch, single) &&
      (m0 - Expired(m0, kind, ids, now)) + f == m0 + f
  {
    AnswerSplit(m0, kind, ids, now, batch, single);
    RefreshCovers(m0, kind, ids, batch, single, now);
  }

  /** When every id hits, nothing is deleted and nothing is written. */
  lemma NothingExpired(m0: Dict, kind: Kind, ids: set<int>, now: int, batch: Option<map<int, Doc>>, single: map<int, Doc>)
    requires Misses(m0, kind, ids, now) == {}
    ensures m0 - Expired(m0, kind, ids, now) == m0 + FreshEntries(kind, {}, batch, single, now)
  {
    ExpiredAreMissed(m0, kind, ids, now);
    FreshEmpty(kind, batch, single, now);
  }

  /** When every id hits, the hits are the answer. */
  lemma AllHitsAnswer(m0: Dict, kind: Kind, ids: set<int>, now: int, batch: Option<map<int, Doc>>, single: map<int, Doc>)
    requires Misses(m0, kind, ids, now) == {}
    ensures CachedValues(m0, kind, ids) == Answer(m0, kind, ids, now, batch, single)
  {
    forall pid | pid in ids ensures IsHit(m0, Key(kind, pid), now) {
      assert pid !in Misses(m0, kind, ids, now);
    }
  }

  /** The answer is the hits' cached values together with the remote answers for the misses. */
  lemma AnswerSplit(m: Dict, kind: Kind, ids: set<int>, now: int, batch: Option<map<int, Doc>>, single: map<int, Doc>)
    ensures Answer(m, kind, ids, now, batch, single)
         == CachedValues(m, kind, ids - Misses(m, kind, ids, now)) + RemoteAnswers(Misses(m, kind, ids, now), batch, single)
  {
  }

  /** The keys of `ids` whose entries have expired by `now`: the ones `cache_get` deletes. */
  function Expired(m: Dict, kind: Kind, ids: set<int>, now: int): set<Key> {
    set k | k in m && k.kind == kind && k.id in ids && now > m[k].expiry
  }

  /** Overwriting every missed key hides what the first loop deleted. */
  lemma RefreshCovers(m0: Dict, kind: Kind, ids: set<int>, batch: Option<map<int, Doc>>, single: map<int, Doc>, now: int)
    ensures var f := FreshEntries(kind, Misses(m0, kind, ids, now), batch, single, now);
      (m0 - Expired(m0, kind, ids, now)) + f == m0 + f
  {
    ExpiredAreMissed(m0, kind, ids, now);
  }

  /** Every entry `cache_get` deletes belongs to an id that is then fetched. */
  lemma ExpiredAreMissed(m0: Dict, kind: Kind, ids: set<int>, now: int)
    ensures forall k :: k in Expired(m0, kind, ids, now) ==> k == Key(kind, k.id) && k.id in Misses(m0, kind, ids, now)
  {
    forall k | k in Expired(m0, kind, ids, now)
      ensures k == Key(kind, k.id) && k.id in Misses(m0, kind, ids, now)
    {
      assert !IsHit(m0, Key(kind, k.id), now);
    }
  }

  /** One more `cache_get` of an id not yet looked at: the entry it sees is the
      original one, and the dictionary it leaves behind has the expired entries
      of one more id removed. */
  lemma ExpiredStep(m0: Dict, kind: Kind, done: set<int>, pid: int, now: int)
    requires pid !in done
    ensures var m := m0 - Expired(m0, kind, done, now); var key := Key(kind, pid);
      (key in m <==> key in m0) && (key in m ==> m[key] == m0[key]) &&
      Fetch(m, key, now).1 == m0 - Expired(m0, kind, done + {pid}, now)
  {
    var key := Key(kind, pid);
    var m := m0 - Expired(m0, kind, done, now);
    if key in m0 && now > m0[key].expiry {
      assert Expired(m0, kind, done + {pid}, now) == Expired(m0, kind, done, now) + {key};
    } else {
      assert Expired(m0, kind, done + {pid}, now) == Expired(m0, kind, done, now);
    }
  }

  predicate Distinct(xs: seq<int>) {
    forall i, j :: 0 <= i < j < |xs| ==> xs[i] != xs[j]
  }

  /** What the first loop has built once it has looked at the ids `seen`. */
  ghost predicate Scanned(m0: Dict, kind: Kind, seen: set<int>, now: int,
                          hits: map<int, Cached>, toFetch: seq<int>, entries: Dict)
  {
    var missed := Misses(m0, kind, seen, now);
    Elems(toFetch) == missed && Distinct(toFetch) &&
    hits == CachedValues(m0, kind, seen - missed) &&
    entries == m0 - Expired(m0, kind, seen, now)
  }

  /** One `cache_get` of an id not yet looked at keeps Scanned: a hit goes to
      the result, anything else to `to_fetch`. */
  lemma ScanStep(m0: Dict, kind: Kind, seen: set<int>, now: int,
                 hits: map<int, Cached>, toFetch: seq<int>, pid: int,
                 cached: Option<Cached>, entries: Dict, hits': map<int, Cached>, toFetch': seq<int>)
    requires pid !in seen
    requires Scanned(m0, kind, seen, now, hits, toFetch, m0 - Expired(m0, kind, seen, now))
    requires cached == Fetch(m0 - Expired(m0, kind, seen, now), Key(kind, pid), now).0
    requires entries == Fetch(m0 - Expired(m0, kind, seen, now), Key(kind, pid), now).1
    requires cached.Some? && cached.value.Some? ==> hits' == hits[pid := cached.value] && toFetch' == toFetch
    requires !(cached.Some? && cached.value.Some?) ==> hits' == hits && toFetch' == toFetch + [pid]
    ensures Scanned(m0, kind, seen + {pid}, now, hits', toFetch', entries)
  {
    ExpiredStep(m0, kind, seen, pid, now);
    var missed := Misses(m0, kind, seen, now);
    if cached.Some? && cached.value.Some? {
      assert Misses(m0, kind, seen + {pid}, now) == missed;
      assert CachedValues(m0, kind, seen + {pid} - missed) == CachedValues(m0, kind, seen - missed)[pid := cached.value];
    } else {
      assert Misses(m0, kind, seen + {pid}, now) == missed + {pid};
      assert seen + {pid} - (missed + {pid}) == seen - missed;
    }
  }

  /** The first loop of the lookup: `cache_get` for every distinct id, keeping
      the hits and listing the misses in `to_fetch`. The ids are visited in the
      order given, each once (`{int(i) for i in ids}`). It deletes the expired
      entries of the ids it looks at, which are all misses and which the caller
      overwrites. */
  method CheckCache(cache: Cache<Key, Cached>, kind: Kind, ids: seq<int>, now: int)
    returns (hits: map<int, Cached>, toFetch: seq<int>)
    modifies cache
    ensures Elems(toFetch) == Misses(old(cache.entries), kind, Elems(ids), now)
    ensures Distinct(toFetch)
    ensures hits == CachedValues(old(cache.entries), kind, Elems(ids) - Misses(old(cache.entries), kind, Elems(ids), now))
    ensures cache.entries == old(cache.entries) - Expired(old(cache.entries), kind, Elems(ids), now)
  {
    ghost var m0 := cache.entries;
    var seen: set<int> := {};
    hits := map[];
    toFetch := [];
    assert CachedValues(m0, kind, {}) == map[];
    assert Expired(m0, kind, {}, now) == {};
    var n := 0;
    while n < |ids|
      invariant 0 <= n <= |ids|
      invariant seen == Elems(ids[..n])
      invariant Scanned(m0, kind, seen, now, hits, toFetch, cache.entries)
    {
      var pid := ids[n];
      PrefixElems(ids, n);
      if pid !in seen {
        ghost var (hits0, toFetch0) := (hits, toFetch);
        var cached := cache.Get(Key(kind, pid), now);
        if cached.Some? && cached.value.Some? {
          hits := hits[pid := cached.value];
        } else {
          toFetch := toFetch + [pid];
        }
        ScanStep(m0, kind, seen, now, hits0, toFetch0, pid, cached, cache.entries, hits, toFetch);
        seen := seen + {pid};
      }
      n := n + 1;
    }
    assert ids[..n] == ids;
  }

  /** The ids of one more prefix of the list. */
  lemma PrefixElems(ids: seq<int>, n: int)
    requires 0 <= n < |ids|
    ensures Elems(ids[..n + 1]) == Elems(ids[..n]) + {ids[n]}
  {
    assert ids[..n + 1] == ids[..n] + [ids[n]];
  }

  /** The second loop: every fetched id gets its answer in the result and a
      fresh cache entry. */
  method StoreFetched(cache: Cache<Key, Cached>, kind: Kind, toFetch: seq<int>, now: int,
                      batch: Option<map<int, Doc>>, single: map<int, Doc>, hits: map<int, Cached>)
    returns (result: map<int, Cached>)
    modifies cache
    ensures cache.entries == old(cache.entries) + FreshEntries(kind, Elems(toFetch), batch, single, now)
    ensures result == hits + RemoteAnswers(Elems(toFetch), batch, single)
  {
    ghost var e1 := cache.entries;
    result := hits;
    var i := 0;
    ghost var done: set<int> := {};
    FreshEmpty(kind, batch, single, now);
    AnswersEmpty(hits, batch, single);
    while i < |toFetch|
      invariant 0 <= i <= |toFetch|
      invariant done == Elems(toFetch[..i])
      invariant cache.entries == e1 + FreshEntries(kind, done, batch, single, now)
      invariant result == hits + RemoteAnswers(done, batch, single)
    {
      var pid := toFetch[i];
      var prod := Remote(batch, single, pid);
      result := result[pid := prod];
      AnswersAdd(hits, done, pid, batch, single);
      FreshAdd(e1, kind, done, pid, batch, single, now);
      cache.Set(Key(kind, pid), prod, FetchTtl, now);
      PrefixElems(toFetch, i);
      done := done + {pid};
      i := i + 1;
    }
    assert toFetch[..i] == toFetch;
  }

  lemma AnswersEmpty(hits: map<int, Cached>, batch: Option<map<int, Doc>>, single: map<int, Doc>)
    ensures hits + RemoteAnswers({}, batch, single) == hits
  {
    assert RemoteAnswers({}, batch, single) == map[];
  }

  /** One more fetched id adds exactly its own answer. */
  lemma AnswersAdd(hits: map<int, Cached>, pids: set<int>, pid: int, batch: Option<map<int, Doc>>, single: map<int, Doc>)
    ensures (hits + RemoteAnswers(pids, batch, single))[pid := Remote(batch, single, pid)]
         == hits + RemoteAnswers(pids + {pid}, batch, single)
  {
    assert RemoteAnswers(pids + {pid}, batch, single) == RemoteAnswers(pids, batch, single)[pid := Remote(batch, single, pid)];
  }

  lemma FreshEmpty(kind: Kind, batch: Option<map<int, Doc>>, single: map<int, Doc>, now: int)
    ensures FreshEntries(kind, {}, batch, single, now) == map[]
  {
  }

  /** One more fetched id adds exactly its own entry. */
  lemma FreshAdd(base: Dict, kind: Kind, pids: set<int>, pid: int, batch: Option<map<int, Doc>>, single: map<int, Doc>, now: int)
    ensures (base + FreshEntries(kind, pids, batch, single, now))[Key(kind, pid) := Entry(now + FetchTtl, Remote(batch, single, pid))]
         == base + FreshEntries(kind, pids + {pid}, batch, single, now)
  {
    var f := FreshEntries(kind, pids, batch, single, now);
    var g := FreshEntries(kind, pids + {pid}, batch, single, now);
    assert g == f[Key(kind, pid) := Entry(now + FetchTtl, Remote(batch, single, pid))];
  }

  /** Distinct keys are spelled differently, so a product key never meets a user key. */
  lemma {:induction false} KeyTextInjective(a: Key, b: Key)
    requires KeyText(a) == KeyText(b)
    ensures a == b
  {
    var pa := if a.kind == Product then "product:" else "user:";
    var pb := if b.kind == Product then "product:" else "user:";
    assert KeyText(a)[0] == pa[0] && KeyText(b)[0] == pb[0];
    assert pa == pb;
    assert IntToString(a.id) == KeyText(a)[|pa|..];
    assert IntToString(b.id) == KeyText(b)[|pb|..];
    IntToStringInjective(a.id, b.id);
  }

  /** A product key never spells the same string as a user key. */
  lemma ProductUserKeysDiffer(a: int, b: int)
    ensures KeyText(Key(Product, a)) != KeyText(Key(User, b))
  {
    if KeyText(Key(Product, a)) == KeyText(Key(User, b)) {
      KeyTextInjective(Key(Product, a), Key(User, b));
    }
  }

  // ---- What a lookup promises ----

  /** Nothing is fetched exactly when every id hits; the lookup then writes nothing. */
  lemma AllHitsIffNothingFetched(m: Dict, kind: Kind, ids: set<int>, now: int, batch: Option<map<int, Doc>>, single: map<int, Doc>)
    ensures Misses(m, kind, ids, now) == {} <==> forall pid :: pid in ids ==> IsHit(m, Key(kind, pid), now)
    ensures Misses(m, kind, ids, now) == {} ==> m + FreshEntries(kind, Misses(m, kind, ids, now), batch, single, now) == m
  {
    if Misses(m, kind, ids, now) == {} {
      forall pid | pid in ids ensures IsHit(m, Key(kind, pid), now) {
        assert pid !in Misses(m, kind, ids, now);
      }
      FreshEmpty(kind, batch, single, now);
      assert m + map[] == m;
    } else {
      var pid :| pid in Misses(m, kind, ids, now);
      assert pid in ids && !IsHit(m, Key(kind, pid), now);
    }
  }

  /** An id cached as None, however fresh the entry, is fetched again. */
  lemma CachedNoneRefetched(m: Dict, kind: Kind, ids: set<int>, pid: int, now: int)
    requires pid in ids && Key(kind, pid) in m && m[Key(kind, pid)].value == None
    ensures pid in Misses(m, kind, ids, now)
  {
  }

  /** Every requested id is in the result: a hit with its cached document, a
      miss with the remote answer, None when the batch endpoint omitted it. */
  lemma AnswerCoversRequest(m: Dict, kind: Kind, ids: set<int>, now: int, batch: Option<map<int, Doc>>, single: map<int, Doc>, pid: int)
    requires pid in ids
    ensures var r := Answer(m, kind, ids, now, batch, single);
      pid in r &&
      (IsHit(m, Key(kind, pid), now) ==> r[pid] == m[Key(kind, pid)].value && r[pid].Some?) &&
      (!IsHit(m, Key(kind, pid), now) && batch.Some? && pid !in batch.value ==> r[pid] == None)
  {
  }

  /** A document a lookup fetched at `now` is served from the cache by every
      later lookup up to `now + 30`, whatever the remote side then answers. */
  lemma FetchedThenHit(m: Dict, kind: Kind, ids: set<int>, now: int, batch: Option<map<int, Doc>>, single: map<int, Doc>,
                       pid: int, later: int, laterIds: set<int>, batch': Option<map<int, Doc>>, single': map<int, Doc>)
    requires pid in Misses(m, kind, ids, now) && Remote(batch, single, pid).Some?
    requires later <= now + FetchTtl && pid in laterIds
    ensures var m' := m + FreshEntries(kind, Misses(m, kind, ids, now), batch, single, now);
      IsHit(m', Key(kind, pid), later) && pid !in Misses(m', kind, laterIds, later) &&
      Answer(m', kind, laterIds, later, batch', single')[pid] == Remote(batch, single, pid)
  {
    var f := FreshEntries(kind, Misses(m, kind, ids, now), batch, single, now);
    assert Key(kind, pid) in f && f[Key(kind, pid)] == Entry(now + FetchTtl, Remote(batch, single, pid));
  }
}
