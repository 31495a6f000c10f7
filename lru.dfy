/**
 * The bounded least-recently-used map both image caches build from
 * `new LinkedHashMap<String, Image>(capacity + 1, 1.1f, true)` with a `removeEldestEntry`
 * override: an access-ordered map (a successful get or a put moves its key to the
 * most-recent end) that, after inserting a NEW key, flushes and removes the eldest entry
 * once the size exceeds `capacity`. Re-putting an existing key replaces its image and
 * evicts nothing. The map is built with initial capacity `capacity + 1`, which HashMap
 * refuses when it is negative (capacity <= -2, or Integer.MAX_VALUE once the addition wraps);
 * with capacity 0 or -1 the inserted entry is itself evicted whenever the map was empty, so
 * the map stays empty.
 */
module Lru {
  import opened Wrappers
  import opened Images

  ghost predicate Distinct<T>(s: seq<T>) {
    forall i, j :: 0 <= i < j < |s| ==> s[i] != s[j]
  }

  /** `s` without `k`, other elements in their order. */
  function Without(s: seq<string>, k: string): (r: seq<string>)
    ensures forall x :: x in r <==> x in s && x != k
    ensures |r| <= |s|
    ensures k !in s ==> r == s
  {
    if s == [] then []
    else if s[0] == k then Without(s[1..], k)
    else [s[0]] + Without(s[1..], k)
  }

  /** Removing a key from a distinct order leaves a distinct order one shorter. */
  lemma {:induction false} WithoutDistinct(s: seq<string>, k: string)
    requires Distinct(s)
    ensures Distinct(Without(s, k))
    ensures k in s ==> |Without(s, k)| == |s| - 1
  {
    if s != [] {
      assert Distinct(s[1..]);
      WithoutDistinct(s[1..], k);
      if s[0] != k {
        assert s[0] !in s[1..];
        var t := Without(s[1..], k);
        assert s[0] !in t;
        assert Without(s, k) == [s[0]] + t;
      } else {
        assert k !in s[1..];
      }
    }
  }

  /** The access order after touching `k`: `k` moves to the most-recent end. */
  function Touch(s: seq<string>, k: string): (r: seq<string>)
    ensures r != [] && r[|r| - 1] == k
    ensures r[..|r| - 1] == Without(s, k)
  {
    Without(s, k) + [k]
  }

  /** How many entries a map of this capacity can hold. */
  function Bound(capacity: int): (b: nat)
    ensures capacity >= 0 ==> b == capacity
  {
    if capacity < 0 then 0 else capacity
  }

  /** The abstract state: keys least-recently-used first, the map, and the flush log. */
  datatype Snapshot = Snapshot(order: seq<string>, entries: map<string, Image>, flushed: seq<Image>)

  /** The map's invariant: the order lists each key exactly once and the size is bounded. */
  ghost predicate Wf(s: Snapshot, capacity: int) {
    && Distinct(s.order)
    && (forall k :: k in s.entries <==> k in s.order)
    && |s.order| <= Bound(capacity)
  }

  /** LinkedHashMap.get in access order: a hit moves the key to the most-recent end. */
  function AfterGet(s: Snapshot, key: string): (r: Snapshot)
    ensures r.entries == s.entries && r.flushed == s.flushed
    ensures key !in s.entries ==> r == s
  {
    if key in s.entries then s.(order := Touch(s.order, key)) else s
  }

  /** LinkedHashMap.put followed by the removeEldestEntry hook. */
  function AfterPut(s: Snapshot, capacity: int, key: string, img: Image): Snapshot
    requires Wf(s, capacity)
  {
    if key in s.entries then
      Snapshot(Touch(s.order, key), s.entries[key := img], s.flushed)
    else
      var grown := s.order + [key];
      var withNew := s.entries[key := img];
      if |grown| > capacity then
        Snapshot(grown[1..], withNew - {grown[0]}, s.flushed + [withNew[grown[0]]])
      else
        Snapshot(grown, withNew, s.flushed)
  }

  /** A distinct sequence has as many elements as the set of them. */
  lemma {:induction false} DistinctCard<T>(s: seq<T>)
    requires Distinct(s)
    ensures |set x | x in s| == |s|
  {
    if s != [] {
      var rest := s[1..];
      assert Distinct(rest);
      DistinctCard(rest);
      assert (set x | x in s) == {s[0]} + (set x | x in rest);
      assert s[0] !in (set x | x in rest);
    }
  }

  /** In a well-formed snapshot the map has exactly one entry per key of the order. */
  lemma SizeIsOrderLength(s: Snapshot, capacity: int)
    requires Wf(s, capacity)
    ensures |s.entries| == |s.order| <= Bound(capacity)
  {
    DistinctCard(s.order);
    assert s.entries.Keys == set x | x in s.order;
  }

  /** A get keeps the invariant and touches only the order. */
  lemma GetPreserves(s: Snapshot, capacity: int, key: string)
    requires Wf(s, capacity)
    ensures Wf(AfterGet(s, key), capacity)
  {
    WithoutDistinct(s.order, key);
    if key in s.entries {
      var t := Without(s.order, key);
      assert Touch(s.order, key) == t + [key];
      assert key !in t;
    }
  }

  /**
   * A put keeps the invariant: after any insertion the map holds at most `capacity`
   * entries (at most Bound(capacity), as capacity is not validated).
   */
  lemma PutPreserves(s: Snapshot, capacity: int, key: string, img: Image)
    requires Wf(s, capacity)
    ensures Wf(AfterPut(s, capacity, key, img), capacity)
    ensures |AfterPut(s, capacity, key, img).entries| <= Bound(capacity)
  {
    var r := AfterPut(s, capacity, key, img);
    if key in s.entries {
      GetPreserves(s, capacity, key);
    } else {
      var grown := s.order + [key];
      assert Distinct(grown);
      if |grown| > capacity {
        assert r.order == grown[1..];
        assert forall k :: k in r.entries <==> k in r.order by {
          forall k ensures k in r.entries <==> k in r.order {
            assert k in grown <==> k == grown[0] || k in grown[1..];
          }
        }
      }
    }
    SizeIsOrderLength(r, capacity);
  }

  /**
   * What a put evicts: nothing when the key was present or the capacity was not exceeded;
   * otherwise exactly the eldest key of the order after appending the new key, whose
   * image is appended to the flush log, and nothing else is removed.
   */
  /** Only the eldest key can leave the map on a put. */
  lemma Evicts(s: Snapshot, capacity: int, key: string, img: Image)
    requires Wf(s, capacity)
    ensures forall k :: k in s.entries && k !in AfterPut(s, capacity, key, img).entries ==> k == s.order[0]
  {
    PutEvictsEldest(s, capacity, key, img);
  }

  lemma PutEvictsEldest(s: Snapshot, capacity: int, key: string, img: Image)
    requires Wf(s, capacity)
    ensures var r := AfterPut(s, capacity, key, img);
            var evicting := key !in s.entries && |s.order| + 1 > capacity;
            && (!evicting ==> r.flushed == s.flushed && r.entries.Keys == s.entries.Keys + {key})
            && (evicting && s.order != [] ==>
                  && r.flushed == s.flushed + [s.entries[s.order[0]]]
                  && r.entries.Keys == s.entries.Keys + {key} - {s.order[0]}
                  && r.order == s.order[1..] + [key])
            && (evicting && s.order == [] ==> r.flushed == s.flushed + [img] && r.entries == map[])
  {
  }

  /** With capacity at least one, the image just put is in the map and is the most recent. */
  lemma PutStores(s: Snapshot, capacity: int, key: string, img: Image)
    requires Wf(s, capacity) && capacity >= 1
    ensures var r := AfterPut(s, capacity, key, img);
            key in r.entries && r.entries[key] == img && r.order[|r.order| - 1] == key
  {
    var r := AfterPut(s, capacity, key, img);
    if key !in s.entries && |s.order| + 1 > capacity {
      assert s.order != [];
      assert s.order[0] != key;
      assert r.order == (s.order + [key])[1..];
    }
  }

  /** Every key of the order has a stamp below the clock. */
  ghost predicate Stamped(order: seq<string>, stamp: map<string, nat>, clock: nat) {
    forall k :: k in order ==> k in stamp && stamp[k] < clock
  }

  /** The order is sorted by stamp, oldest first. */
  ghost predicate SortedBy(order: seq<string>, stamp: map<string, nat>) {
    order != [] ==>
      && (forall x :: x in order[1..] && x in stamp && order[0] in stamp ==> stamp[order[0]] < stamp[x])
      && SortedBy(order[1..], stamp)
  }

  /** Removing a key keeps the order sorted by stamp. */
  lemma {:induction false} WithoutSorted(s: seq<string>, k: string, stamp: map<string, nat>)
    requires SortedBy(s, stamp)
    ensures SortedBy(Without(s, k), stamp)
  {
    if s != [] {
      WithoutSorted(s[1..], k, stamp);
      if s[0] != k {
        var t := Without(s[1..], k);
        assert Without(s, k) == [s[0]] + t;
        assert ([s[0]] + t)[1..] == t;
      }
    }
  }

  /** Appending a key stamped with the clock keeps the order stamped and sorted. */
  lemma {:induction false} AppendSorted(s: seq<string>, k: string, stamp: map<string, nat>, clock: nat)
    requires Stamped(s, stamp, clock) && SortedBy(s, stamp) && k !in s
    ensures Stamped(s + [k], stamp[k := clock], clock + 1)
    ensures SortedBy(s + [k], stamp[k := clock])
  {
    var st := stamp[k := clock];
    if s == [] {
      assert SortedBy([k][1..], st);
    } else {
      assert (s + [k])[1..] == s[1..] + [k];
      AppendSorted(s[1..], k, stamp, clock);
      assert s[0] != k && s[0] in st;
      forall x | x in (s + [k])[1..] && x in st ensures st[s[0]] < st[x] {
        if x != k {
          assert x in s[1..];
        }
      }
    }
  }

  /** Touching a key stamps it with the clock and keeps the order stamped and sorted. */
  lemma TouchSorted(s: seq<string>, k: string, stamp: map<string, nat>, clock: nat)
    requires Stamped(s, stamp, clock) && SortedBy(s, stamp)
    ensures Stamped(Touch(s, k), stamp[k := clock], clock + 1)
    ensures SortedBy(Touch(s, k), stamp[k := clock])
  {
    WithoutSorted(s, k, stamp);
    AppendSorted(Without(s, k), k, stamp, clock);
  }

  /** In an order sorted by stamp, the first key has the strictly oldest stamp. */
  lemma EldestIsLeast(s: seq<string>, stamp: map<string, nat>)
    requires forall k :: k in s ==> k in stamp
    requires SortedBy(s, stamp)
    ensures s != [] ==> forall k :: k in s && k != s[0] ==> stamp[s[0]] < stamp[k]
  {
    if s != [] {
      forall k | k in s && k != s[0] ensures stamp[s[0]] < stamp[k] {
        assert k in s[1..];
      }
    }
  }

  /** The order lists the keys once each, sorted by their stamps, all below the clock. */
  ghost predicate OrderedState(order: seq<string>, entries: map<string, Image>, stamp: map<string, nat>, clock: nat) {
    && Distinct(order)
    && (forall k :: k in entries <==> k in order)
    && Stamped(order, stamp, clock)
    && SortedBy(order, stamp)
  }

  /** Touching a present key, with its own or a new image, keeps the parts of the invariant. */
  lemma TouchKeeps(order: seq<string>, entries: map<string, Image>, key: string, img: Image, stamp: map<string, nat>, clock: nat)
    requires OrderedState(order, entries, stamp, clock) && key in entries
    ensures OrderedState(Touch(order, key), entries[key := img], stamp[key := clock], clock + 1)
    ensures |Touch(order, key)| == |order|
  {
    WithoutDistinct(order, key);
    var t := Without(order, key);
    assert Touch(order, key) == t + [key];
    assert key !in t;
    TouchSorted(order, key, stamp, clock);
    assert entries[key := img].Keys == entries.Keys;
  }

  /**
   * The map object. Ghost stamps record when each key was last accessed, which is what
   * makes "least recently used" a statement: the order is sorted by last access.
   */
  class LruMap {
    const capacity: int
    var order: seq<string>
    var entries: map<string, Image>
    var flushed: seq<Image>
    ghost var lastUse: map<string, nat>
    ghost var clock: nat

    function Snap(): Snapshot
      reads this
    {
      Snapshot(order, entries, flushed)
    }

    /** The order lists the keys once each, sorted by last access; the size is not bounded. */
    ghost predicate Ordered()
      reads this
    {
      OrderedState(order, entries, lastUse, clock)
    }

    ghost predicate Valid()
      reads this
    {
      Ordered() && |order| <= Bound(capacity)
    }

    constructor (capacity: int)
      ensures Valid() && this.capacity == capacity
      ensures Snap() == Snapshot([], map[], [])
    {
      this.capacity := capacity;
      order, entries, flushed := [], map[], [];
      lastUse, clock := map[], 0;
    }

    /** LinkedHashMap.get: the image for `key`, if any; a hit makes `key` most recent. */
    method Get(key: string) returns (r: Option<Image>)
      requires Valid()
      modifies this
      ensures Valid()
      ensures Snap() == AfterGet(old(Snap()), key)
      ensures r == if key in old(entries) then Some(old(entries)[key]) else None
      ensures key in old(entries) ==> forall k :: k in order && k != key ==> lastUse[k] < lastUse[key]
      ensures key !in old(entries) ==> unchanged(this)
    {
      if key in entries {
        r := Some(entries[key]);
        TouchKeeps(order, entries, key, entries[key], lastUse, clock);
        assert entries[key := entries[key]] == entries;
        order := Touch(order, key);
        lastUse, clock := lastUse[key := clock], clock + 1;
      } else {
        r := None;
      }
    }

    /** LinkedHashMap.put for a key already present: new image, key most recent, no eviction. */
    method Replace(key: string, img: Image)
      requires Valid() && key in entries
      modifies this
      ensures Valid()
      ensures Snap() == Snapshot(Touch(old(order), key), old(entries)[key := img], old(flushed))
    {
      TouchKeeps(order, entries, key, img, lastUse, clock);
      order, entries := Touch(order, key), entries[key := img];
      lastUse, clock := lastUse[key := clock], clock + 1;
    }

    /** The insertion half of LinkedHashMap.put for a key not yet present. */
    method Append(key: string, img: Image)
      requires Ordered() && key !in entries
      modifies this
      ensures Ordered()
      ensures order == old(order) + [key] && entries == old(entries)[key := img] && flushed == old(flushed)
      ensures forall k :: k in old(order) ==> k in lastUse && lastUse[k] == old(lastUse)[k]
    {
      AppendSorted(order, key, lastUse, clock);
      lastUse := lastUse[key := clock];
      clock := clock + 1;
      order := order + [key];
      entries := entries[key := img];
    }

    /** The removeEldestEntry hook when it fires: flush the eldest image, drop its entry. */
    method RemoveEldest()
      requires Ordered() && order != []
      modifies this
      ensures Ordered()
      ensures order == old(order)[1..] && entries == old(entries) - {old(order)[0]}
      ensures flushed == old(flushed) + [old(entries)[old(order)[0]]]
      ensures lastUse == old(lastUse)
      ensures forall k :: k in old(order) && k != old(order)[0] ==> lastUse[old(order)[0]] < lastUse[k]
    {
      EldestIsLeast(order, lastUse);
      var eldest := order[0];
      assert eldest !in order[1..];
      flushed := flushed + [entries[eldest]];
      entries := entries - {eldest};
      order := order[1..];
      assert forall k :: k in old(order) && k != eldest ==> k in order;
    }

    /**
     * LinkedHashMap.put and the removeEldestEntry override: after inserting a new key,
     * if the size exceeds `capacity` the eldest entry's image is flushed and the entry
     * removed. An evicted key is the first of the old order, which Valid() keeps sorted by
     * last access (see EldestIsLeast): the one accessed least recently.
     */
    method Put(key: string, img: Image)
      requires Valid()
      modifies this
      ensures Valid()
      ensures Snap() == AfterPut(old(Snap()), capacity, key, img)
      ensures |entries| <= Bound(capacity)
      ensures forall k :: k in old(entries) && k !in entries ==> k == old(order)[0]
    {
      ghost var s0 := Snap();
      PutPreserves(s0, capacity, key, img);
      Evicts(s0, capacity, key, img);
      if key in entries {
        Replace(key, img);
      } else {
        Append(key, img);
        if |order| > capacity {
          RemoveEldest();
        }
      }
      SizeIsOrderLength(Snap(), capacity);
    }
  }
}
