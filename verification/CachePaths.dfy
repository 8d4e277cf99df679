/** The code paths around the cache, one call at a time: the interceptor's hit and miss paths
    (`src/cache/cache.interceptor.ts`) and the purge of a list of tags, which the invalidator runs after a write
    (`src/cache/cache-invalidator.service.ts`) and the queued job runs again (`src/cache/cache-purge.processor.ts`). */
module CachePaths {
  import opened Text
  import opened CacheStore

  datatype Source = Hit | Miss | Uncached

  datatype Response<B> = Response(body: B, source: Source)

  /** A GET of a route with tags goes through the cache, everything else goes straight to the handler. The
      body is what the handler would answer now. */
  method Intercept<B>(cache: CacheService<B>, isGet: bool, tags: seq<Tag>, key: string, now: nat, handled: B)
    returns (response: Response<B>)
    modifies cache
    ensures !isGet || tags == []
            ==> response == Response(handled, Uncached) && cache.Contents() == old(cache.Contents())
    ensures isGet && tags != [] ==>
              match Lookup(old(cache.Contents()), key, now)
              case Some(body) => response == Response(body, Hit) && cache.Contents() == old(cache.Contents())
              case None =>
                && response == Response(handled, Miss)
                && cache.Contents() == WithEntry(old(cache.Contents()), key, handled, tags, now + CACHE_L2_TTL_SECONDS)
  {
    if tags == [] || !isGet { return Response(handled, Uncached); }
    var cached := cache.Get(key, now);
    if cached.Some? { return Response(cached.value, Hit); }
    cache.Set(key, handled, tags, now, CACHE_L2_TTL_SECONDS);
    response := Response(handled, Miss);
  }

  /** What a miss stores is what every request for the same key is answered with until the entry expires or a
      purge of one of its tags removes it. */
  lemma StoredUntilExpiredOrPurged<B>(c: Cache<B>, key: string, body: B, tags: seq<Tag>, now: nat, later: nat, tag: Tag)
    requires Indexed(c)
    ensures var stored := WithEntry(c, key, body, tags, now + CACHE_L2_TTL_SECONDS);
            && Lookup(stored, key, later) == (if later < now + 3600 then Some(body) else None)
            && (tag in tags ==> Lookup(WithoutTag(stored, tag), key, later) == None)
            && (tag !in tags && key !in Members(c.tagSets, tag) ==>
                  Lookup(WithoutTag(stored, tag), key, later) == Lookup(stored, key, later))
  {
    AddMembersMembers(c.tagSets, tags, key, tag);
  }

  function WithoutTags<B>(c: Cache<B>, tags: seq<Tag>): Cache<B> {
    if tags == [] then c else WithoutTag(WithoutTags(c, tags[..|tags| - 1]), tags[|tags| - 1])
  }

  method PurgeTags<B>(cache: CacheService<B>, tags: seq<Tag>)
    modifies cache
    ensures cache.Contents() == WithoutTags(old(cache.Contents()), tags)
  {
    for i := 0 to |tags|
      invariant cache.Contents() == WithoutTags(old(cache.Contents()), tags[..i])
    {
      assert tags[..i + 1][..i] == tags[..i];
      var removed := cache.DelByTag(tags[i]);
    }
    assert tags[..|tags|] == tags;
  }

  predicate IsMember<B>(c: Cache<B>, key: string, tags: seq<Tag>) {
    exists i | 0 <= i < |tags| :: key in Members(c.tagSets, tags[i])
  }

  /** A purge removes exactly the keys that were in the set of one of its tags; so no entry with one of these
      tags is left, and in whichever order the tags come, the result is the same. */
  lemma {:induction false} PurgeRemovesMembers<B>(c: Cache<B>, tags: seq<Tag>)
    ensures var r := WithoutTags(c, tags);
            && (forall k :: k in r.entries <==> k in c.entries && !IsMember(c, k, tags))
            && (forall k | k in r.entries :: r.entries[k] == c.entries[k])
            && (forall t :: t in r.tagSets <==> t in c.tagSets && t !in tags)
            && (forall t | t in r.tagSets :: r.tagSets[t] == c.tagSets[t])
  {
    if tags != [] {
      var n := |tags| - 1;
      PurgeRemovesMembers(c, tags[..n]);
      assert tags == tags[..n] + [tags[n]];
      forall k ensures IsMember(c, k, tags) <==> IsMember(c, k, tags[..n]) || k in Members(c.tagSets, tags[n]) {
        if i :| 0 <= i < |tags| && k in Members(c.tagSets, tags[i]) { assert i < n ==> tags[..n][i] == tags[i]; }
      }
      forall k | k in Members(c.tagSets, tags[n]) && k !in Members(WithoutTags(c, tags[..n]).tagSets, tags[n])
        ensures IsMember(c, k, tags[..n])
      {
        assert tags[n] in tags[..n];
        var i :| 0 <= i < n && tags[..n][i] == tags[n];
        assert k in Members(c.tagSets, tags[..n][i]);
      }
    }
  }

  lemma {:induction false} PurgedIsClean<B>(c: Cache<B>, tags: seq<Tag>)
    requires Indexed(c)
    ensures Indexed(WithoutTags(c, tags))
    ensures forall k, t | k in WithoutTags(c, tags).entries && t in tags :: t !in WithoutTags(c, tags).entries[k].tags
  {
    if tags != [] {
      var n := |tags| - 1;
      var before := WithoutTags(c, tags[..n]);
      PurgedIsClean(c, tags[..n]);
      WithoutTagIsClean(before, tags[n]);
      assert tags == tags[..n] + [tags[n]];
    }
  }
}
