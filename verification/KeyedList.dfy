/**
 The list and index the two caches keep: records in insertion order, and a map from each key
 to its element, updated together.
 */
module KeyedLists {
  import opened TtlCache

  class KeyedList {
    /** Oldest at the front. */
    var entries: seq<Rec>
    var index: map<string, Rec>

    /** The index maps exactly the keys of the list, each to its own element. */
    static ghost predicate Indexed(entries: seq<Rec>, index: map<string, Rec>) {
      && DistinctKeys(entries)
      && (forall i :: 0 <= i < |entries| ==> entries[i].key in index && index[entries[i].key] == entries[i])
      && (forall k :: k in index ==> index[k].key == k && index[k] in entries)
    }

    ghost predicate Valid()
      reads this
    {
      Indexed(entries, index)
    }

    constructor ()
      ensures Valid() && entries == []
    {
      entries, index := [], map[];
    }

    /** What a lookup in the index finds. */
    lemma Lookup(key: string)
      requires Valid()
      ensures key in index ==> Find(entries, key) < |entries| && entries[Find(entries, key)] == index[key]
      ensures key !in index ==> Find(entries, key) == |entries| && Without(entries, key) == entries
      ensures !Has(Without(entries, key), key) && |Without(entries, key)| <= |entries|
    {
    }

    /** Takes one element out of the list and its key out of the index. */
    method Forget(el: Rec)
      requires Valid() && el in entries
      modifies this
      ensures Valid() && entries == Without(old(entries), el.key)
      ensures |entries| == |old(entries)| - 1
    {
      entries := Without(entries, el.key);
      index := index - {el.key};
    }

    /** The same for the front of the list. */
    method ForgetFront()
      requires Valid() && entries != []
      modifies this
      ensures Valid() && entries == old(entries)[1..]
    {
      assert Find(entries, entries[0].key) == 0;
      Forget(entries[0]);
    }

    method PushBack(el: Rec)
      requires Valid() && !Has(entries, el.key)
      modifies this
      ensures Valid() && entries == old(entries) + [el]
    {
      forall i | 0 <= i < |entries| ensures entries[i].key != el.key {
        assert entries[i] in entries;
      }
      entries := entries + [el];
      index := index[el.key := el];
    }

    /** Capacity eviction; its loop runs at most once, and then finds a front to remove. */
    method EvictOldest(capacity: int)
      requires Valid() && (capacity > 0 ==> |entries| <= capacity + 1)
      modifies this
      ensures Valid() && entries == Evict(old(entries), capacity)
    {
      if capacity > 0 {
        ghost var rounds: nat := 0;
        while |entries| > capacity
          invariant Valid() && rounds <= 1 && rounds <= |old(entries)|
          invariant entries == old(entries)[rounds..] && (rounds == 1 ==> |old(entries)| == capacity + 1)
        {
          assert entries != [];
          ForgetFront();
          rounds := rounds + 1;
        }
      }
    }
  }
}
