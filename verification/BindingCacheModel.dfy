/** The cache of entity bindings: keys in the order of their last use, their entries, and an index from topics to keys. */
module BindingCacheModel {
  import opened Common

  /** The program joins the two parts by a NUL, which no instant contains; None stands for "current". */
  datatype Key = Key(asOf: Option<int>, topic: string)

  /** A date text: an instant in milliseconds, or a text that is no date, with which every comparison fails. */
  datatype Stamp = At(ms: int) | NotADate

  datatype Status = ResolvedTo | NotFound | Ambiguous

  datatype Resolution = Resolution(
    topic: string, status: Status, validFrom: Option<Stamp>, validTo: Option<Stamp>, detail: string)

  datatype Entry = Entry(resolution: Resolution, fetchedAt: int)

  type Index = map<string, seq<Key>>

  // Lists without repetition.

  ghost predicate Distinct<T(!new)>(all: seq<T>) {
    forall i, j :: 0 <= i < j < |all| ==> all[i] != all[j]
  }

  /** Everything but `x`, in order. */
  function Drop<T(==)>(all: seq<T>, x: T): seq<T> {
    if all == [] then []
    else if all[0] == x then Drop(all[1..], x)
    else [all[0]] + Drop(all[1..], x)
  }

  /** The keys of other topics, in order. */
  function Others(order: seq<Key>, topic: string): seq<Key> {
    if order == [] then []
    else if order[0].topic == topic then Others(order[1..], topic)
    else [order[0]] + Others(order[1..], topic)
  }

  lemma {:induction false} DropMeans<T(!new)>(all: seq<T>, x: T)
    requires Distinct(all)
    ensures Distinct(Drop(all, x))
    ensures forall y :: y in Drop(all, x) <==> y in all && y != x
    ensures |Drop(all, x)| == |all| - if x in all then 1 else 0
  {
    if all != [] {
      var rest := all[1..];
      assert all == [all[0]] + rest;
      assert forall i :: 0 <= i < |rest| ==> rest[i] == all[i + 1];
      DropMeans(rest, x);
      assert all[0] !in rest;
    }
  }

  lemma {:induction false} DropAbsent<T>(all: seq<T>, x: T)
    requires x !in all
    ensures Drop(all, x) == all
  {
    if all != [] {
      DropAbsent(all[1..], x);
      assert all == [all[0]] + all[1..];
    }
  }

  lemma {:induction false} DropConcat<T>(a: seq<T>, b: seq<T>, x: T)
    ensures Drop(a + b, x) == Drop(a, x) + Drop(b, x)
  {
    if a == [] {
      assert a + b == b;
    } else {
      assert (a + b)[1..] == a[1..] + b;
      DropConcat(a[1..], b, x);
    }
  }

  lemma {:induction false} OthersMeans(order: seq<Key>, topic: string)
    requires Distinct(order)
    ensures Distinct(Others(order, topic)) && |Others(order, topic)| <= |order|
    ensures forall k :: k in Others(order, topic) <==> k in order && k.topic != topic
  {
    if order != [] {
      var rest := order[1..];
      assert order == [order[0]] + rest;
      assert forall i :: 0 <= i < |rest| ==> rest[i] == order[i + 1];
      OthersMeans(rest, topic);
      assert order[0] !in rest;
    }
  }

  lemma PushDistinct<T(!new)>(all: seq<T>, x: T)
    requires Distinct(all) && x !in all
    ensures Distinct(all + [x])
  {
  }

  // The invariant.

  /** The order lists each cached key once, and an entry is filed under its own topic. */
  ghost predicate WellFormed(order: seq<Key>, cache: map<Key, Entry>) {
    && Distinct(order)
    && (forall k :: k in order <==> k in cache)
    && (forall k :: k in cache ==> cache[k].resolution.topic == k.topic)
  }

  /** The index lists, for each topic, its cached keys; no topic is listed without keys. */
  ghost predicate IndexExact(cache: map<Key, Entry>, index: Index) {
    && (forall t :: t in index ==> index[t] != [] && Distinct(index[t]))
    && (forall t, k :: t in index && k in index[t] ==> k.topic == t && k in cache)
    && (forall k :: k in cache ==> k.topic in index && k in index[k.topic])
  }

  // The operations, as functions.

  /** The order after a use of `key`. */
  function Use(order: seq<Key>, key: Key): seq<Key> {
    Drop(order, key) + [key]
  }

  function IndexAdd(index: Index, key: Key): Index {
    var keys := if key.topic in index then index[key.topic] else [];
    index[key.topic := if key in keys then keys else keys + [key]]
  }

  function IndexRemove(index: Index, key: Key): Index {
    if key.topic !in index then index
    else
      var keys := Drop(index[key.topic], key);
      if keys == [] then index - {key.topic} else index[key.topic := keys]
  }

  function ForgetTopic(cache: map<Key, Entry>, topic: string): map<Key, Entry> {
    map k | k in cache && k.topic != topic :: cache[k]
  }

  lemma UseMeans(order: seq<Key>, key: Key)
    requires Distinct(order)
    ensures Distinct(Use(order, key))
    ensures forall k :: k in Use(order, key) <==> k in order || k == key
    ensures |Use(order, key)| == |order| + if key in order then 0 else 1
  {
    DropMeans(order, key);
    PushDistinct(Drop(order, key), key);
  }

  lemma AddExact(cache: map<Key, Entry>, index: Index, key: Key, entry: Entry)
    requires IndexExact(cache, index)
    ensures IndexExact(cache[key := entry], IndexAdd(index, key))
  {
    var next := IndexAdd(index, key);
    var keys := if key.topic in index then index[key.topic] else [];
    if key !in keys {
      PushDistinct(keys, key);
    }
  }

  lemma RemoveExact(cache: map<Key, Entry>, index: Index, key: Key)
    requires IndexExact(cache, index)
    ensures IndexExact(cache - {key}, IndexRemove(index, key))
  {
    if key.topic in index {
      DropMeans(index[key.topic], key);
    }
  }

  lemma ForgetExact(cache: map<Key, Entry>, index: Index, topic: string)
    requires IndexExact(cache, index)
    ensures IndexExact(ForgetTopic(cache, topic), index - {topic})
  {
  }

  // Removing the keys of a topic one by one.

  function Outside(order: seq<Key>, out: set<Key>): seq<Key> {
    if order == [] then []
    else if order[0] in out then Outside(order[1..], out)
    else [order[0]] + Outside(order[1..], out)
  }

  lemma {:induction false} OutsideDrop(order: seq<Key>, out: set<Key>, x: Key)
    ensures Drop(Outside(order, out), x) == Outside(order, out + {x})
  {
    if order != [] {
      OutsideDrop(order[1..], out, x);
    }
  }

  lemma {:induction false} OutsideNone(order: seq<Key>)
    ensures Outside(order, {}) == order
  {
    if order != [] {
      OutsideNone(order[1..]);
    }
  }

  lemma {:induction false} OutsideTopic(order: seq<Key>, out: set<Key>, topic: string)
    requires forall k :: k in order ==> (k in out <==> k.topic == topic)
    ensures Outside(order, out) == Others(order, topic)
  {
    if order != [] {
      assert order[0] in order;
      assert forall k :: k in order[1..] ==> k in order;
      OutsideTopic(order[1..], out, topic);
    }
  }

  /** The keys left when topics are forgotten one after the other, up to the first value that is no topic. */
  function Forgotten(order: seq<Key>, topics: seq<Option<string>>): seq<Key>
    decreases |topics|
  {
    if topics == [] || topics[0].None? then order else Forgotten(Others(order, topics[0].value), topics[1..])
  }

  /** No value before the first that is no topic names the topic of this key. */
  predicate Spared(key: Key, topics: seq<Option<string>>) {
    topics == [] || topics[0].None? || (topics[0].value != key.topic && Spared(key, topics[1..]))
  }

  lemma {:induction false} ForgottenMeans(order: seq<Key>, topics: seq<Option<string>>)
    requires Distinct(order)
    ensures Distinct(Forgotten(order, topics)) && |Forgotten(order, topics)| <= |order|
    ensures forall k :: k in Forgotten(order, topics) <==> k in order && Spared(k, topics)
    decreases |topics|
  {
    if topics != [] && topics[0].Some? {
      OthersMeans(order, topics[0].value);
      ForgottenMeans(Others(order, topics[0].value), topics[1..]);
    }
  }

  // Least recently used.

  /** Keys in the order of their last use, over a whole list of uses. */
  function Recency(uses: seq<Key>): seq<Key> {
    if uses == [] then [] else Use(Recency(uses[..|uses| - 1]), uses[|uses| - 1])
  }

  function Newest(order: seq<Key>, max: nat): seq<Key> {
    if |order| <= max then order else order[|order| - max..]
  }

  /** A bounded use of a key: the least recently used key makes room. */
  function BoundedUse(order: seq<Key>, key: Key, max: nat): seq<Key> {
    Newest(Use(order, key), max)
  }

  function BoundedUses(uses: seq<Key>, max: nat): seq<Key> {
    if uses == [] then [] else BoundedUse(BoundedUses(uses[..|uses| - 1], max), uses[|uses| - 1], max)
  }

  lemma {:induction false} RecencyMeans(uses: seq<Key>)
    ensures Distinct(Recency(uses)) && forall k :: k in Recency(uses) <==> k in uses
  {
    if uses != [] {
      var front, last := uses[..|uses| - 1], uses[|uses| - 1];
      RecencyMeans(front);
      UseMeans(Recency(front), last);
      assert uses == front + [last];
    }
  }

  /** A use reorders the newest keys as it reorders all of them. */
  lemma UseOfNewest(order: seq<Key>, key: Key, max: nat)
    requires Distinct(order) && max >= 1
    ensures Newest(Use(Newest(order, max), key), max) == Newest(Use(order, key), max)
  {
    if |order| > max {
      var old0, kept := order[..|order| - max], order[|order| - max..];
      assert order == old0 + kept;
      DropConcat(old0, kept, key);
      assert Use(order, key) == Drop(old0, key) + (Drop(kept, key) + [key]);
      assert Distinct(kept);
      DropMeans(kept, key);
      if key in kept {
        var k :| 0 <= k < |kept| && kept[k] == key;
        assert order[|old0| + k] == key;
        assert key !in old0;
        DropAbsent(old0, key);
      }
    }
  }

  /** Bounded by `max`, the cache always holds the keys that were used last, in the order of their last use: what it
      evicts is the least recently used key. */
  lemma {:induction false} CacheIsLeastRecentlyUsed(uses: seq<Key>, max: nat)
    requires max >= 1
    ensures BoundedUses(uses, max) == Newest(Recency(uses), max)
  {
    if uses != [] {
      var front, last := uses[..|uses| - 1], uses[|uses| - 1];
      CacheIsLeastRecentlyUsed(front, max);
      RecencyMeans(front);
      UseOfNewest(Recency(front), last, max);
    }
  }

  // Reuse of a stored interval.

  /** The stored binding of the topic holds at the instant; a comparison with no date fails. */
  predicate Usable(entry: Entry, instant: int) {
    && entry.resolution.status == ResolvedTo
    && entry.resolution.validFrom.Some?
    && !(entry.resolution.validFrom.value.At? && entry.resolution.validFrom.value.ms > instant)
    && !(entry.resolution.validTo.Some? && entry.resolution.validTo.value.At?
         && entry.resolution.validTo.value.ms <= instant)
  }

  /** Of an entry whose bounds are instants: it is usable exactly if it is resolved, begins, and holds from its begin up to
      its end, without it. A bound that is no date excludes nothing. */
  lemma UsableExactly(entry: Entry, instant: int)
    ensures var from, to := entry.resolution.validFrom, entry.resolution.validTo;
            && (from.Some? && from.value.At? && (to.Some? ==> to.value.At?) ==>
                  (Usable(entry, instant) <==>
                     entry.resolution.status == ResolvedTo && from.value.ms <= instant
                     && (to.Some? ==> instant < to.value.ms)))
            && (from.None? ==> !Usable(entry, instant))
            && (from == Some(NotADate) && to == Some(NotADate) ==>
                  (Usable(entry, instant) <==> entry.resolution.status == ResolvedTo))
  {
  }

  /** The slot is usable and none of the whole cache for that topic was fetched later. */
  ghost predicate IsFreshest(cache: map<Key, Entry>, topic: string, instant: int, key: Key) {
    && key in cache && key.topic == topic && Usable(cache[key], instant)
    && forall k :: k in cache && k.topic == topic && Usable(cache[k], instant) ==>
         cache[k].fetchedAt <= cache[key].fetchedAt
  }

  ghost predicate NoneUsable(cache: map<Key, Entry>, topic: string, instant: int) {
    forall k :: k in cache && k.topic == topic ==> !Usable(cache[k], instant)
  }
}
