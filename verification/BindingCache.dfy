/** The binding cache as the program has it: an insertion-ordered map, its inverse index, and loops over both. */
module BindingCache {
  import opened Common
  import opened BindingCacheModel

  datatype Outcome = Removed(count: nat) | NotATopic(index: nat)

  datatype Cached = Cached(key: Key, entry: Entry)

  /** The values without repetition, as a set of the program lists them. */
  function Once(values: seq<string>): seq<string> {
    if values == [] then []
    else
      var front := Once(values[..|values| - 1]);
      if values[|values| - 1] in front then front else front + [values[|values| - 1]]
  }

  function Normalized(values: seq<string>, normalize: string -> Option<string>): (r: seq<Option<string>>)
    ensures |r| == |values| && forall i :: 0 <= i < |r| ==> r[i] == normalize(values[i])
  {
    seq(|values|, i requires 0 <= i < |values| => normalize(values[i]))
  }

  function Among(keys: seq<Key>): set<Key> {
    set k | k in keys
  }

  /** Deleting one more of the keys. */
  lemma OneMore(order: seq<Key>, cache: map<Key, Entry>, keys: seq<Key>, i: nat)
    requires i < |keys|
    ensures Outside(order, Among(keys[..i + 1])) == Drop(Outside(order, Among(keys[..i])), keys[i])
    ensures cache - Among(keys[..i + 1]) == cache - Among(keys[..i]) - {keys[i]}
  {
    assert keys[..i + 1] == keys[..i] + [keys[i]];
    assert Among(keys[..i + 1]) == Among(keys[..i]) + {keys[i]};
    OutsideDrop(order, Among(keys[..i]), keys[i]);
  }

  lemma NoneYet(order: seq<Key>, cache: map<Key, Entry>, keys: seq<Key>)
    ensures Outside(order, Among(keys[..0])) == order && cache - Among(keys[..0]) == cache
    ensures keys[..|keys|] == keys
  {
    assert Among(keys[..0]) == {};
    OutsideNone(order);
  }

  ghost predicate Fewer(before: map<Key, Entry>, after: map<Key, Entry>) {
    forall k :: k in after ==> k in before && after[k] == before[k]
  }

  /** The entries of the named topics are gone, the others are as they were. */
  ghost predicate Cleared(before: map<Key, Entry>, after: map<Key, Entry>, topics: seq<Option<string>>) {
    Fewer(before, after) && forall k :: k in after <==> k in before && Spared(k, topics)
  }

  lemma ClearedBy(
    before: seq<Key>, cacheBefore: map<Key, Entry>, after: seq<Key>, cacheAfter: map<Key, Entry>,
    topics: seq<Option<string>>)
    requires WellFormed(before, cacheBefore) && WellFormed(after, cacheAfter) && Fewer(cacheBefore, cacheAfter)
    requires after == Forgotten(before, topics)
    ensures Cleared(cacheBefore, cacheAfter, topics) && |after| <= |before|
  {
    ForgottenMeans(before, topics);
  }

  lemma FewerStill(a: map<Key, Entry>, b: map<Key, Entry>, topic: string)
    requires Fewer(a, b)
    ensures Fewer(a, ForgetTopic(b, topic))
  {
  }

  lemma ForgottenStep(order: seq<Key>, topics: seq<Option<string>>, i: nat)
    requires i < |topics|
    ensures Forgotten(order, topics[i..])
         == if topics[i].None? then order else Forgotten(Others(order, topics[i].value), topics[i + 1..])
  {
    assert topics[i..][1..] == topics[i + 1..];
  }

  lemma Unbounded(order: seq<Key>, key: Key, max: nat)
    requires Distinct(order) && key in order && |order| <= max
    ensures BoundedUse(order, key, max) == Use(order, key)
  {
    UseMeans(order, key);
  }

  class EntityBindingCache {
    /** Trimming, Unicode normalisation and the check for one concrete path; None where it throws. */
    const normalize: string -> Option<string>
    const maxCacheEntries: nat
    const cacheTtlMs: nat
    const staleIfErrorMs: nat

    var order: seq<Key>
    var cache: map<Key, Entry>
    var cacheKeysByTopic: Index

    ghost predicate Valid()
      reads this
    {
      && 1 <= maxCacheEntries && cacheTtlMs <= staleIfErrorMs
      && |order| <= maxCacheEntries
      && WellFormed(order, cache) && IndexExact(cache, cacheKeysByTopic)
    }

    constructor (normalize: string -> Option<string>, maxCacheEntries: nat, cacheTtlMs: nat, staleIfErrorMs: nat)
      requires maxCacheEntries >= 1 && cacheTtlMs <= staleIfErrorMs
      ensures Valid() && order == []
      ensures this.normalize == normalize && this.maxCacheEntries == maxCacheEntries
      ensures this.cacheTtlMs == cacheTtlMs && this.staleIfErrorMs == staleIfErrorMs
    {
      this.normalize, this.maxCacheEntries := normalize, maxCacheEntries;
      this.cacheTtlMs, this.staleIfErrorMs := cacheTtlMs, staleIfErrorMs;
      order, cache, cacheKeysByTopic := [], map[], map[];
    }

    method EvictOldest()
      requires order != [] && WellFormed(order, cache) && IndexExact(cache, cacheKeysByTopic)
      modifies this
      ensures WellFormed(order, cache) && IndexExact(cache, cacheKeysByTopic)
      ensures order == old(order)[1..] && cache == old(cache) - {old(order)[0]}
    {
      var oldest := order[0];
      assert oldest in order;
      RemoveExact(cache, cacheKeysByTopic, oldest);
      order := order[1..];
      cache := cache - {oldest};
      cacheKeysByTopic := IndexRemove(cacheKeysByTopic, oldest);
      assert old(order) == [oldest] + order;
    }

    /** Put an entry last. */
    method Put(key: Key, entry: Entry)
      requires Valid() && entry.resolution.topic == key.topic
      modifies this
      ensures WellFormed(order, cache) && IndexExact(cache, cacheKeysByTopic)
      ensures order == Use(old(order), key) && |order| <= maxCacheEntries + 1
      ensures cache == old(cache)[key := entry]
    {
      UseMeans(order, key);
      AddExact(cache, cacheKeysByTopic, key, entry);
      order := Use(order, key);
      cache := cache[key := entry];
      cacheKeysByTopic := IndexAdd(cacheKeysByTopic, key);
    }

    /** Store an entry as the one used last; the least recently used one makes room. */
    method Touch(key: Key, entry: Entry)
      requires Valid() && entry.resolution.topic == key.topic
      modifies this
      ensures Valid() && order == BoundedUse(old(order), key, maxCacheEntries)
      ensures key in cache && cache[key] == entry
      ensures forall k :: k in cache && k != key ==> k in old(cache) && cache[k] == old(cache)[k]
    {
      Put(key, entry);
      ghost var used := order;
      while |order| > maxCacheEntries
        invariant WellFormed(order, cache) && IndexExact(cache, cacheKeysByTopic)
        invariant maxCacheEntries <= |order| <= |used| || order == used
        invariant order == used[|used| - |order|..] && order[|order| - 1] == key
        invariant forall k :: k in cache ==> k in old(cache)[key := entry] && cache[k] == old(cache)[key := entry][k]
        decreases |order|
      {
        EvictOldest();
      }
      assert order[|order| - 1] in order;
    }

    /** A stored entry becomes the one used last. */
    method Refresh(key: Key)
      requires Valid() && key in cache
      modifies this
      ensures Valid() && order == Use(old(order), key) && cache == old(cache)
    {
      UseMeans(order, key);
      Touch(key, cache[key]);
      Unbounded(old(order), key, maxCacheEntries);
      assert forall k :: k in cache <==> k in old(cache);
    }

    /** Among the topic's keys, the usable entry that was fetched last; the index stands for a scan of the whole cache. */
    method FindReusableInterval(topic: string, asOf: Option<int>) returns (found: Option<Key>)
      requires Valid()
      ensures asOf.None? ==> found.None?
      ensures asOf.Some? && found.None? ==> NoneUsable(cache, topic, asOf.value)
      ensures asOf.Some? && found.Some? ==> IsFreshest(cache, topic, asOf.value, found.value)
      ensures found.Some? ==> found.value in cache && found.value.topic == topic
    {
      if asOf.None? || topic !in cacheKeysByTopic {
        return None;
      }
      var keys, instant := cacheKeysByTopic[topic], asOf.value;
      found := None;
      for i := 0 to |keys|
        invariant found.None? ==> forall j :: 0 <= j < i ==> !Usable(cache[keys[j]], instant)
        invariant found.Some? ==> found.value in keys && Usable(cache[found.value], instant)
        invariant found.Some? ==> forall j :: 0 <= j < i && Usable(cache[keys[j]], instant) ==>
                    cache[keys[j]].fetchedAt <= cache[found.value].fetchedAt
      {
        if Usable(cache[keys[i]], instant)
           && (found.None? || cache[keys[i]].fetchedAt > cache[found.value].fetchedAt) {
          found := Some(keys[i]);
        }
      }
    }

    method Invalidate()
      requires Valid()
      modifies this
      ensures Valid() && order == [] && cacheKeysByTopic == map[]
    {
      order, cache, cacheKeysByTopic := [], map[], map[];
    }

    method DeleteKey(key: Key) returns (deleted: bool)
      requires WellFormed(order, cache)
      modifies this`order, this`cache
      ensures WellFormed(order, cache) && deleted == (key in old(cache))
      ensures order == Drop(old(order), key) && cache == old(cache) - {key}
      ensures |order| == |old(order)| - if deleted then 1 else 0
    {
      DropMeans(order, key);
      deleted := key in cache;
      if deleted {
        order := Drop(order, key);
        cache := cache - {key};
      } else {
        DropAbsent(order, key);
      }
    }

    method DeleteKeys(keys: seq<Key>) returns (removed: nat)
      requires WellFormed(order, cache)
      modifies this`order, this`cache
      ensures WellFormed(order, cache) && cache == old(cache) - Among(keys)
      ensures order == Outside(old(order), Among(keys)) && removed == |old(order)| - |order|
    {
      removed := 0;
      NoneYet(order, cache, keys);
      for i := 0 to |keys|
        invariant WellFormed(order, cache) && |order| + removed == |old(order)|
        invariant order == Outside(old(order), Among(keys[..i])) && cache == old(cache) - Among(keys[..i])
      {
        OneMore(old(order), old(cache), keys, i);
        var deleted := DeleteKey(keys[i]);
        if deleted {
          removed := removed + 1;
        }
      }
    }

    /** Forget one topic, key by key. */
    method ForgetTopicKeys(topic: string) returns (removed: nat)
      requires Valid()
      modifies this
      ensures Valid() && order == Others(old(order), topic) && removed == |old(order)| - |order|
      ensures cache == ForgetTopic(old(cache), topic)
    {
      OthersMeans(order, topic);
      if topic !in cacheKeysByTopic {
        OutsideNone(order);
        OutsideTopic(order, {}, topic);
        return 0;
      }
      var keys := cacheKeysByTopic[topic];
      OutsideTopic(order, Among(keys), topic);
      ForgetExact(cache, cacheKeysByTopic, topic);
      removed := DeleteKeys(keys);
      assert cache == ForgetTopic(old(cache), topic);
      cacheKeysByTopic := cacheKeysByTopic - {topic};
    }

    /** Forget the topics of the values; a value that is no topic ends it, with the earlier topics forgotten. */
    method InvalidateTopics(values: seq<string>) returns (outcome: Outcome)
      requires Valid()
      modifies this
      ensures Valid()
      ensures var topics := Normalized(Once(values), normalize);
              && order == Forgotten(old(order), topics)
              && Cleared(old(cache), cache, topics)
              && match outcome
                 case Removed(count) => count == |old(order)| - |order| && forall i :: 0 <= i < |topics| ==> topics[i].Some?
                 case NotATopic(i) => i < |topics| && topics[i].None?
    {
      var unique := Once(values);
      ghost var topics := Normalized(unique, normalize);
      var removed := 0;
      for i := 0 to |unique|
        invariant Valid() && |order| + removed == |old(order)|
        invariant Forgotten(old(order), topics) == Forgotten(order, topics[i..])
        invariant forall j :: 0 <= j < i ==> topics[j].Some?
        invariant Fewer(old(cache), cache)
      {
        var topic := normalize(unique[i]);
        ForgottenStep(order, topics, i);
        if topic.None? {
          ClearedBy(old(order), old(cache), order, cache, topics);
          return NotATopic(i);
        }
        FewerStill(old(cache), cache, topic.value);
        var more := ForgetTopicKeys(topic.value);
        removed := removed + more;
      }
      assert topics[|unique|..] == [];
      ClearedBy(old(order), old(cache), order, cache, topics);
      outcome := Removed(removed);
    }

    // What a resolution asks of the cache.

    /** A stored answer within its lifetime: under the very key, or else a stored interval that covers the instant. A hit
        counts as a use and changes nothing else. */
    method Lookup(topic: string, asOf: Option<int>, now: int) returns (candidate: Option<Cached>, hit: bool)
      requires Valid()
      modifies this
      ensures Valid() && (hit ==> candidate.Some?)
      ensures candidate.Some? ==>
                && candidate.value.key.topic == topic == candidate.value.entry.resolution.topic
                && candidate.value.key in old(cache) && old(cache)[candidate.value.key] == candidate.value.entry
                && (if Key(asOf, topic) in old(cache) then candidate.value.key == Key(asOf, topic)
                    else asOf.Some? && IsFreshest(old(cache), topic, asOf.value, candidate.value.key))
                && hit == (now - candidate.value.entry.fetchedAt <= cacheTtlMs)
      ensures candidate.None? ==> Key(asOf, topic) !in old(cache)
                                  && (asOf.Some? ==> NoneUsable(old(cache), topic, asOf.value))
      ensures cache == old(cache)
      ensures order == if hit then Use(old(order), candidate.value.key) else old(order)
    {
      var key := Key(asOf, topic);
      if key in cache {
        candidate := Some(Cached(key, cache[key]));
      } else {
        var found := FindReusableInterval(topic, asOf);
        candidate := if found.Some? then Some(Cached(found.value, cache[found.value])) else None;
      }
      hit := candidate.Some? && now - candidate.value.entry.fetchedAt <= cacheTtlMs;
      if hit {
        Refresh(candidate.value.key);
      }
    }

    /** The controller answered; its answer for the topic is stored. */
    method Store(topic: string, asOf: Option<int>, resolution: Option<Resolution>, now: int)
      requires Valid() && (resolution.Some? ==> resolution.value.topic == topic)
      modifies this
      ensures Valid()
      ensures resolution.None? ==> order == old(order) && cache == old(cache)
      ensures resolution.Some? ==> order == BoundedUse(old(order), Key(asOf, topic), maxCacheEntries)
                                   && Key(asOf, topic) in cache && cache[Key(asOf, topic)] == Entry(resolution.value, now)
      ensures forall k :: k in cache && k != Key(asOf, topic) ==> k in old(cache) && cache[k] == old(cache)[k]
    {
      if resolution.Some? {
        Touch(Key(asOf, topic), Entry(resolution.value, now));
      }
    }

    /** The controller failed; the candidate that was found before may serve a while longer. */
    method UseStale(candidate: Option<Cached>, now: int) returns (served: bool)
      requires Valid() && (candidate.Some? ==> candidate.value.entry.resolution.topic == candidate.value.key.topic)
      modifies this
      ensures Valid()
      ensures served == (candidate.Some? && now - candidate.value.entry.fetchedAt <= staleIfErrorMs)
      ensures if served then order == BoundedUse(old(order), candidate.value.key, maxCacheEntries)
              else order == old(order) && cache == old(cache)
      ensures served ==> candidate.value.key in cache && cache[candidate.value.key] == candidate.value.entry
      ensures forall k :: k in cache && !(served && k == candidate.value.key) ==> k in old(cache) && cache[k] == old(cache)[k]
    {
      served := candidate.Some? && now - candidate.value.entry.fetchedAt <= staleIfErrorMs;
      if served {
        Touch(candidate.value.key, candidate.value.entry);
      }
    }
  }
}
