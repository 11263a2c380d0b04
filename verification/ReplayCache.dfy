/** The replay cache object and the operations that update it in place. */
module ReplayCaches {
  import opened TtlCache
  import opened KeyedLists

  class ReplayCache {
    var ttl: int
    const capacity: int
    const list: KeyedList

    ghost function View(): Cache
      reads this, list
    {
      Cache(ttl, capacity, list.entries)
    }

    ghost predicate Valid()
      reads this, list
    {
      list.Valid() && Coherent(View())
    }

    constructor (ttl: int, capacity: int)
      ensures Valid() && View() == New(ttl, capacity) && fresh(list)
    {
      this.ttl, this.capacity := ttl, capacity;
      list := new KeyedList();
    }

    /** Raises a positive ttl to at least floor; never lowers one, and leaves "no expiry" alone. */
    method EnsureMinTTL(floor: int)
      requires Valid()
      modifies this
      ensures Valid() && list.entries == old(list.entries)
      ensures ttl == (if old(ttl) <= 0 || old(ttl) >= floor then old(ttl) else floor)
    {
      if ttl > 0 && ttl < floor {
        ttl := floor;
      }
    }

    /** now is the clock, read under the lock. */
    method CheckAndInsert(timestamp: string, signature: string, now: int) returns (duplicate: bool)
      requires Valid()
      modifies list
      ensures Valid()
      ensures var key := timestamp + "." + signature;
        duplicate == Duplicate(old(View()), key, now) && View() == Insert(old(View()), key, now)
    {
      var key := timestamp + "." + signature;
      InsertCoherent(View(), key, now);
      list.Lookup(key);
      if key in list.index {
        var entry := list.index[key];
        if ttl <= 0 || now - entry.at <= ttl {
          return true;
        }
        list.Forget(entry);
      }
      list.PushBack(Rec(key, now));
      list.EvictOldest(capacity);
      return false;
    }

    /** One janitor tick. */
    method Sweep(now: int)
      requires Valid()
      modifies list
      ensures Valid() && View() == TtlCache.Sweep(old(View()), now)
    {
      SweepCoherent(View(), now);
      if ttl <= 0 {
        return;
      }
      var cutoff := now - ttl;
      while list.entries != []
        invariant list.Valid()
        invariant DropOld(list.entries, cutoff) == DropOld(old(list.entries), cutoff)
        decreases |list.entries|
      {
        if list.entries[0].at > cutoff {
          return;
        }
        list.ForgetFront();
      }
    }
  }

  const MINUTE := 60_000_000_000

  /** The janitor's tick: half the ttl, at most a minute, and a minute when nothing expires. */
  function SweepInterval(ttl: int): int {
    if ttl <= 0 then MINUTE
    else if ttl / 2 < MINUTE then ttl / 2 else MINUTE
  }

  /**
   The tick interval is the longest that is within a minute and, for a positive ttl, within
   half of it; it is zero exactly for a ttl of one nanosecond.
   */
  lemma SweepIntervalIsLongest(ttl: int, interval: int)
    ensures interval <= SweepInterval(ttl) <==> interval <= 60_000_000_000 && (ttl > 0 ==> 2 * interval <= ttl)
    ensures SweepInterval(ttl) == 0 <==> ttl == 1
    ensures SweepInterval(ttl) >= 0
  {
  }
}
