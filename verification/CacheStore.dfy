/** The tagged cache of `src/cache/cache.service.ts`: entries with a time to live, and one set of keys per tag. */
module CacheStore {
  import opened Text

  type Tag = string

  datatype Entry<B> = Entry(body: B, tags: set<Tag>, expires: nat)

  datatype Cache<B> = Cache(entries: map<string, Entry<B>>, tagSets: map<Tag, set<string>>)

  const CACHE_L2_TTL_SECONDS: nat := 3600

  function TagSet(tags: seq<Tag>): set<Tag> {
    set t | t in tags
  }

  function Lookup<B>(c: Cache<B>, key: string, now: nat): Option<B> {
    if key in c.entries && now < c.entries[key].expires then Some(c.entries[key].body) else None
  }

  function Members(tagSets: map<Tag, set<string>>, tag: Tag): set<string> {
    if tag in tagSets then tagSets[tag] else {}
  }

  function AddMember(tagSets: map<Tag, set<string>>, tag: Tag, key: string): map<Tag, set<string>> {
    tagSets[tag := Members(tagSets, tag) + {key}]
  }

  function AddMembers(tagSets: map<Tag, set<string>>, tags: seq<Tag>, key: string): map<Tag, set<string>> {
    if tags == [] then tagSets
    else AddMember(AddMembers(tagSets, tags[..|tags| - 1], key), tags[|tags| - 1], key)
  }

  /** One pipeline: the entry with its expiry, and the key into the set of each tag. */
  function WithEntry<B>(c: Cache<B>, key: string, body: B, tags: seq<Tag>, expires: nat): Cache<B> {
    Cache(c.entries[key := Entry(body, TagSet(tags), expires)], AddMembers(c.tagSets, tags, key))
  }

  function WithoutTag<B>(c: Cache<B>, tag: Tag): Cache<B> {
    Cache(c.entries - Members(c.tagSets, tag), c.tagSets - {tag})
  }

  /** Each entry sits in the set of each of its tags, so a purge by tag cannot miss it. */
  ghost predicate Indexed<B>(c: Cache<B>) {
    forall k, t | k in c.entries && t in c.entries[k].tags :: k in Members(c.tagSets, t)
  }

  lemma {:induction false} AddMembersMembers(tagSets: map<Tag, set<string>>, tags: seq<Tag>, key: string, t: Tag)
    ensures Members(AddMembers(tagSets, tags, key), t)
         == Members(tagSets, t) + (if t in tags then {key} else {})
  {
    if tags != [] {
      assert tags == tags[..|tags| - 1] + [tags[|tags| - 1]];
      AddMembersMembers(tagSets, tags[..|tags| - 1], key, t);
    }
  }

  lemma WithEntryIsIndexed<B>(c: Cache<B>, key: string, body: B, tags: seq<Tag>, expires: nat)
    requires Indexed(c)
    ensures Indexed(WithEntry(c, key, body, tags, expires))
  {
    var c' := WithEntry(c, key, body, tags, expires);
    forall k, t | k in c'.entries && t in c'.entries[k].tags ensures k in Members(c'.tagSets, t) {
      AddMembersMembers(c.tagSets, tags, key, t);
      if k != key { assert k in Members(c.tagSets, t); }
    }
  }

  /** Deleting by tag leaves no entry with that tag, and keeps the index right for the others. */
  lemma WithoutTagIsClean<B>(c: Cache<B>, tag: Tag)
    requires Indexed(c)
    ensures Indexed(WithoutTag(c, tag))
    ensures forall k | k in WithoutTag(c, tag).entries ::
              tag !in c.entries[k].tags && WithoutTag(c, tag).entries[k] == c.entries[k]
  {
    var c' := WithoutTag(c, tag);
    forall k, t | k in c'.entries && t in c'.entries[k].tags ensures k in Members(c'.tagSets, t) && t != tag {
      assert k in Members(c.tagSets, t);
    }
  }

  /** `delByTag` is two calls, SMEMBERS and then DEL. A `set` that lands between them, for a key that was not
      a member yet, leaves an entry behind that is in no set: deleting by that tag again will not remove it. */
  lemma SetBetweenTheTwoCallsLeaks<B>(c: Cache<B>, tag: Tag, key: string, body: B, tags: seq<Tag>, expires: nat)
    requires tag in tags && key !in Members(c.tagSets, tag)
    ensures var read := Members(c.tagSets, tag);
            var between := WithEntry(c, key, body, tags, expires);
            var after := Cache(between.entries - read, between.tagSets - {tag});
            key in after.entries && !Indexed(after) && key in WithoutTag(after, tag).entries
  {
    var between := WithEntry(c, key, body, tags, expires);
    var after := Cache(between.entries - Members(c.tagSets, tag), between.tagSets - {tag});
    assert tag in after.entries[key].tags && key !in Members(after.tagSets, tag);
  }

  class CacheService<B(==)> {
    var entries: map<string, Entry<B>>
    var tagSets: map<Tag, set<string>>

    ghost function Contents(): Cache<B>
      reads this
    {
      Cache(entries, tagSets)
    }

    method Get(key: string, now: nat) returns (r: Option<B>)
      ensures r == Lookup(Contents(), key, now)
    {
      if key in entries && now < entries[key].expires {
        r := Some(entries[key].body);
      } else {
        r := None;
      }
    }

    method Set(key: string, body: B, tags: seq<Tag>, now: nat, ttlSeconds: nat)
      modifies this
      ensures Contents() == WithEntry(old(Contents()), key, body, tags, now + ttlSeconds)
    {
      entries := entries[key := Entry(body, TagSet(tags), now + ttlSeconds)];
      for i := 0 to |tags|
        invariant entries == old(entries)[key := Entry(body, TagSet(tags), now + ttlSeconds)]
        invariant tagSets == AddMembers(old(tagSets), tags[..i], key)
      {
        tagSets := AddMember(tagSets, tags[i], key);
        assert tags[..i + 1][..i] == tags[..i];
      }
      assert tags[..|tags|] == tags;
    }

    method DelByTag(tag: Tag) returns (removed: nat)
      modifies this
      ensures Contents() == WithoutTag(old(Contents()), tag)
      ensures removed == |Members(old(tagSets), tag)|
    {
      var keys := Members(tagSets, tag);
      entries := entries - keys;
      tagSets := tagSets - {tag};
      removed := |keys|;
    }

    /** The two SCAN loops. A full iteration returns every key that was there throughout, in batches that
        may be empty and may repeat a key. */
    method PurgeAllKeys(entryBatches: seq<set<string>>, tagBatches: seq<set<Tag>>)
      requires forall k | k in entries :: exists i :: 0 <= i < |entryBatches| && k in entryBatches[i]
      requires forall t | t in tagSets :: exists i :: 0 <= i < |tagBatches| && t in tagBatches[i]
      modifies this
      ensures Contents() == Cache(map[], map[])
    {
      for cursor := 0 to |entryBatches|
        invariant tagSets == old(tagSets) && entries.Keys <= old(entries).Keys
        invariant forall k, i | k in entries && 0 <= i < cursor :: k !in entryBatches[i]
      {
        entries := entries - entryBatches[cursor];
      }
      assert entries == map[] by {
        assert forall k :: k !in entries;
      }
      for cursor := 0 to |tagBatches|
        invariant entries == map[] && tagSets.Keys <= old(tagSets).Keys
        invariant forall t, i | t in tagSets && 0 <= i < cursor :: t !in tagBatches[i]
      {
        tagSets := tagSets - tagBatches[cursor];
      }
      assert tagSets == map[] by {
        assert forall t :: t !in tagSets;
      }
    }
  }
}
