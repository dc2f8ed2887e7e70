/**
 * The two in-memory TTL caches of lib/cache/document-cache.ts: `documentCache`
 * holds the document-version lists served by GET /api/document, `docxCache`
 * the DOCX exports. Each lives in its own map under its own key prefix.
 * `Date.now()` is the `now` parameter of every operation; an omitted `ttlMs`
 * is `None`.
 */
module DocumentCache {
  import opened Wrappers

  /** `DEFAULT_TTL_MS` */
  const DefaultTtlMs: int := 30000

  /** A stored document version, as the database returns it. */
  datatype Document = Document(id: string, createdAt: int, title: string, content: Option<string>, kind: string, userId: string)

  type Bytes = seq<bv8>

  datatype CacheEntry = CacheEntry(value: seq<Document>, expiresAt: int)
  datatype DocxCacheEntry = DocxCacheEntry(buffer: Bytes, filename: string, expiresAt: int)

  /** What `docxCache.get` hands back. */
  datatype DocxHit = DocxHit(buffer: Bytes, filename: string)

  /** `doc:${userId}:${documentId}` */
  function CacheKey(userId: string, documentId: string): (k: string)
    ensures |k| == 5 + |userId| + |documentId| && k[..4] == "doc:"
    ensures k[4..4 + |userId|] == userId && k[4 + |userId|] == ':' && k[5 + |userId|..] == documentId
  {
    "doc:" + userId + ":" + documentId
  }

  /** `docx:${userId}:${documentId}` */
  function DocxCacheKey(userId: string, documentId: string): (k: string)
    ensures |k| == 6 + |userId| + |documentId| && k[..5] == "docx:"
    ensures k[5..5 + |userId|] == userId && k[5 + |userId|] == ':' && k[6 + |userId|..] == documentId
  {
    "docx:" + userId + ":" + documentId
  }

  /** `isExpired`: an entry is stale from its expiry instant on. */
  predicate IsExpired(expiresAt: int, now: int) {
    now >= expiresAt
  }

  /** The expiry an entry written at `now` gets; an omitted TTL is 30 seconds. */
  function ExpiryFor(now: int, ttlMs: Option<int>): (e: int)
    ensures ttlMs.None? ==> e == now + 30000
    ensures ttlMs.Some? ==> e - now == ttlMs.value
  {
    now + ttlMs.GetOr(DefaultTtlMs)
  }

  /** What `documentCache.get` returns for `key` at `now`. */
  function Lookup(store: map<string, CacheEntry>, key: string, now: int): (r: Option<seq<Document>>)
    ensures r.Some? <==> key in store && now < store[key].expiresAt
    ensures r.Some? ==> r.value == store[key].value
  {
    if key !in store then None
    else if IsExpired(store[key].expiresAt, now) then None
    else Some(store[key].value)
  }

  /** The expiry instant of each kind of entry, the field `isExpired` reads. */
  function EntryExpiry(e: CacheEntry): int { e.expiresAt }

  function DocxEntryExpiry(e: DocxCacheEntry): int { e.expiresAt }

  /**
   * The store after a `get` of either cache for `key` at `now`, given how to
   * read an entry's expiry: only an expired entry is dropped.
   */
  function AfterLookup<E>(store: map<string, E>, key: string, expiry: E -> int, now: int): (s: map<string, E>)
    ensures key in store && IsExpired(expiry(store[key]), now) ==> s == store - {key}
    ensures !(key in store && IsExpired(expiry(store[key]), now)) ==> s == store
  {
    if key in store && IsExpired(expiry(store[key]), now) then map k | k in store && k != key :: store[k]
    else store
  }

  /** What `docxCache.get` returns for `key` at `now`. */
  function DocxLookup(store: map<string, DocxCacheEntry>, key: string, now: int): (r: Option<DocxHit>)
    ensures r.Some? <==> key in store && now < store[key].expiresAt
    ensures r.Some? ==> r.value.buffer == store[key].buffer && r.value.filename == store[key].filename
  {
    if key !in store then None
    else if IsExpired(store[key].expiresAt, now) then None
    else Some(DocxHit(store[key].buffer, store[key].filename))
  }

  /** A document-cache key and a DOCX-cache key are never the same string. */
  lemma KeyPrefixesDiffer(u: string, d: string, u': string, d': string)
    ensures CacheKey(u, d) != DocxCacheKey(u', d')
  {
    var k, k' := CacheKey(u, d), DocxCacheKey(u', d');
    assert k[3] == ':' && k'[3] == 'x';
  }

  /** With ':'-free user ids, distinct (user, document) pairs get distinct keys. */
  lemma {:induction false} CacheKeyInjective(u: string, d: string, u': string, d': string)
    requires ':' !in u && ':' !in u'
    requires CacheKey(u, d) == CacheKey(u', d')
    ensures u == u' && d == d'
  {
  }

  /** Ids holding ':' can collide: user "a:b" with document "c" shares its key with user "a", document "b:c". */
  lemma CacheKeyCollision()
    ensures CacheKey("a:b", "c") == CacheKey("a", "b:c")
  {
    assert CacheKey("a:b", "c") == "doc:a:b:c" == CacheKey("a", "b:c");
  }

  /** After `set` at `now`, `get` at `t` returns the stored value exactly while `t` is before the expiry. */
  lemma {:induction false} GetAfterSet(store: map<string, CacheEntry>, key: string, value: seq<Document>, now: int, ttlMs: Option<int>, t: int)
    ensures var s := store[key := CacheEntry(value, ExpiryFor(now, ttlMs))];
      Lookup(s, key, t) == (if t < ExpiryFor(now, ttlMs) then Some(value) else None)
      && (t >= ExpiryFor(now, ttlMs) ==> key !in AfterLookup(s, key, EntryExpiry, t))
  {
    var s := store[key := CacheEntry(value, ExpiryFor(now, ttlMs))];
    assert key in s && s[key].expiresAt == ExpiryFor(now, ttlMs);
  }

  /** The same for the DOCX cache: the hit is exactly the stored buffer and filename. */
  lemma {:induction false} DocxGetAfterSet(store: map<string, DocxCacheEntry>, key: string, buffer: Bytes, filename: string, now: int, ttlMs: Option<int>, t: int)
    ensures var s := store[key := DocxCacheEntry(buffer, filename, ExpiryFor(now, ttlMs))];
      DocxLookup(s, key, t) == (if t < ExpiryFor(now, ttlMs) then Some(DocxHit(buffer, filename)) else None)
      && (t >= ExpiryFor(now, ttlMs) ==> key !in AfterLookup(s, key, DocxEntryExpiry, t))
  {
    var s := store[key := DocxCacheEntry(buffer, filename, ExpiryFor(now, ttlMs))];
    assert key in s && s[key].expiresAt == ExpiryFor(now, ttlMs);
  }

  /** Writing or deleting one key leaves what every other key returns unchanged. */
  lemma {:induction false} OtherKeysUnaffected(store: map<string, CacheEntry>, key: string, other: string, e: CacheEntry, now: int)
    requires other != key
    ensures Lookup(store[key := e], other, now) == Lookup(store, other, now)
    ensures Lookup(store - {key}, other, now) == Lookup(store, other, now)
    ensures Lookup(AfterLookup(store, key, EntryExpiry, now), other, now) == Lookup(store, other, now)
  {
    assert (other in store[key := e]) == (other in store);
    assert (other in store - {key}) == (other in store);
    assert other in store ==> store[key := e][other] == store[other] && (store - {key})[other] == store[other];
  }

  /** `get` is stable: asking twice at the same instant gives the same answer and the same store. */
  lemma {:induction false} LookupTwice(store: map<string, CacheEntry>, key: string, now: int)
    ensures Lookup(AfterLookup(store, key, EntryExpiry, now), key, now) == Lookup(store, key, now)
    ensures AfterLookup(AfterLookup(store, key, EntryExpiry, now), key, EntryExpiry, now) == AfterLookup(store, key, EntryExpiry, now)
  {
    if key in store && IsExpired(store[key].expiresAt, now) {
      assert key !in AfterLookup(store, key, EntryExpiry, now);
    }
  }

  /**
   * The module-level `store` and `docxStore` maps, mutated by `set`,
   * `delete`, and by `get` when it meets an expired entry.
   */
  class Caches {
    var store: map<string, CacheEntry>
    var docxStore: map<string, DocxCacheEntry>

    constructor ()
      ensures store == map[] && docxStore == map[]
    {
      store := map[];
      docxStore := map[];
    }

    /** `documentCache.get` */
    method Get(userId: string, documentId: string, now: int) returns (r: Option<seq<Document>>)
      modifies this
      ensures r == Lookup(old(store), CacheKey(userId, documentId), now)
      ensures store == AfterLookup(old(store), CacheKey(userId, documentId), EntryExpiry, now)
      ensures docxStore == old(docxStore)
    {
      var key := CacheKey(userId, documentId);
      if key !in store {
        return None;
      }
      var entry := store[key];
      if IsExpired(entry.expiresAt, now) {
        store := store - {key};
        return None;
      }
      return Some(entry.value);
    }

    /** `documentCache.set` */
    method Set(userId: string, documentId: string, value: seq<Document>, ttlMs: Option<int>, now: int)
      modifies this
      ensures store == old(store)[CacheKey(userId, documentId) := CacheEntry(value, ExpiryFor(now, ttlMs))]
      ensures docxStore == old(docxStore)
    {
      var key := CacheKey(userId, documentId);
      store := store[key := CacheEntry(value, now + ttlMs.GetOr(DefaultTtlMs))];
    }

    /** `documentCache.delete` */
    method Delete(userId: string, documentId: string)
      modifies this
      ensures store == old(store) - {CacheKey(userId, documentId)}
      ensures docxStore == old(docxStore)
    {
      store := store - {CacheKey(userId, documentId)};
    }

    /** `docxCache.get` */
    method DocxGet(userId: string, documentId: string, now: int) returns (r: Option<DocxHit>)
      modifies this
      ensures r == DocxLookup(old(docxStore), DocxCacheKey(userId, documentId), now)
      ensures docxStore == AfterLookup(old(docxStore), DocxCacheKey(userId, documentId), DocxEntryExpiry, now)
      ensures store == old(store)
    {
      var key := DocxCacheKey(userId, documentId);
      if key !in docxStore {
        return None;
      }
      var entry := docxStore[key];
      if IsExpired(entry.expiresAt, now) {
        docxStore := docxStore - {key};
        return None;
      }
      return Some(DocxHit(entry.buffer, entry.filename));
    }

    /** `docxCache.set` */
    method DocxSet(userId: string, documentId: string, buffer: Bytes, filename: string, ttlMs: Option<int>, now: int)
      modifies this
      ensures docxStore == old(docxStore)[DocxCacheKey(userId, documentId) := DocxCacheEntry(buffer, filename, ExpiryFor(now, ttlMs))]
      ensures store == old(store)
    {
      docxStore := docxStore[DocxCacheKey(userId, documentId) := DocxCacheEntry(buffer, filename, now + ttlMs.GetOr(DefaultTtlMs))];
    }

    /** `docxCache.delete` */
    method DocxDelete(userId: string, documentId: string)
      modifies this
      ensures docxStore == old(docxStore) - {DocxCacheKey(userId, documentId)}
      ensures store == old(store)
    {
      docxStore := docxStore - {DocxCacheKey(userId, documentId)};
    }
  }
}
