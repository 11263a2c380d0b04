/** The /message dedup cache object: the replay cache's list, with Rollback instead of a sweep. */
module DedupCaches {
  import opened TtlCache
  import opened KeyedLists

  /** The composite key joins the fields with NUL. */
  function DedupKey(scope: string, messageID: string): string {
    scope + "\0" + messageID
  }

  predicate IsScope(scope: string) { '\0' !in scope }

  /** The second scope goes on after the first with a NUL, and the first id starts with that rest of the scope. */
  ghost predicate Straddles(scope: string, id: string, scope': string, id': string) {
    exists rest :: scope' == scope + "\0" + rest && id == rest + "\0" + id'
  }

  /** Exactly when two pairs share a key: they are the same, or one scope goes on into the other's id. */
  lemma DedupKeyCollidesIff(scope: string, id: string, scope': string, id': string)
    ensures DedupKey(scope, id) == DedupKey(scope', id') <==>
      (scope == scope' && id == id') || Straddles(scope, id, scope', id') || Straddles(scope', id', scope, id)
  {
    if |scope| <= |scope'| {
      ShorterScope(scope, id, scope', id');
    } else {
      ShorterScope(scope', id', scope, id);
    }
  }

  lemma ShorterScope(scope: string, id: string, scope': string, id': string)
    requires |scope| <= |scope'|
    ensures DedupKey(scope, id) == DedupKey(scope', id') <==>
      (scope == scope' && id == id') || Straddles(scope, id, scope', id')
    ensures Straddles(scope', id', scope, id) ==> Straddles(scope, id, scope', id')
  {
    if DedupKey(scope, id) == DedupKey(scope', id') {
      SameKeyStraddles(scope, id, scope', id');
    }
    if rest :| scope' == scope + "\0" + rest && id == rest + "\0" + id' {
      assert DedupKey(scope, id) == scope + "\0" + (rest + "\0" + id') == (scope + "\0" + rest) + "\0" + id';
    }
  }

  lemma SameKeyStraddles(scope: string, id: string, scope': string, id': string)
    requires |scope| <= |scope'| && DedupKey(scope, id) == DedupKey(scope', id')
    ensures (scope == scope' && id == id') || Straddles(scope, id, scope', id')
  {
    var s := DedupKey(scope, id);
    assert scope == s[..|scope|] && id == s[|scope| + 1..];
    assert scope' == s[..|scope'|] && id' == s[|scope'| + 1..];
    if |scope| < |scope'| {
      var rest := scope'[|scope| + 1..];
      assert s[|scope|] == '\0' && s[|scope'|] == '\0';
      assert scope' == scope + "\0" + rest;
      assert id == rest + "\0" + id';
    }
  }

  /** The pair can be read back from its key as long as scopes hold no NUL. */
  lemma DedupKeyInjective(scope: string, id: string, scope': string, id': string)
    requires IsScope(scope) && IsScope(scope') && DedupKey(scope, id) == DedupKey(scope', id')
    ensures scope == scope' && id == id'
  {
    DedupKeyCollidesIff(scope, id, scope', id');
    assert forall a: string, rest: string :: '\0' in a + "\0" + rest;
  }

  /** The restriction is needed: any pair whose scope holds NUL shares its key with another, well-formed one. */
  lemma NulScopeCollides(scope: string, id: string) returns (scope': string, id': string)
    requires !IsScope(scope)
    ensures IsScope(scope') && DedupKey(scope', id') == DedupKey(scope, id) && scope' < scope
  {
    var n := 0;
    while scope[n] != '\0'
      invariant n < |scope| && forall i :: 0 <= i < n ==> scope[i] != '\0'
      invariant exists i :: n <= i < |scope| && scope[i] == '\0'
      decreases |scope| - n
    {
      n := n + 1;
    }
    scope', id' := scope[..n], scope[n + 1..] + "\0" + id;
    assert scope == scope' + "\0" + scope[n + 1..];
    DedupKeyCollidesIff(scope', id', scope, id);
  }

  // ---------- what the operations mean ----------

  ghost predicate Seen(c: Cache, scope: string, id: string, now: int) {
    id != "" && Duplicate(c, DedupKey(scope, id), now)
  }

  ghost function Recorded(c: Cache, scope: string, id: string, now: int): Cache {
    if id == "" then c else Insert(c, DedupKey(scope, id), now)
  }

  ghost function RolledBack(c: Cache, scope: string, id: string): Cache {
    if id == "" then c else Remove(c, DedupKey(scope, id))
  }

  /**
   Rolling back a fresh record takes out that message and nothing else: the list is as before
   without it, except for the oldest record when the cache was full.
   */
  lemma RollbackUndoes(c: Cache, scope: string, id: string, now: int, later: int)
    requires Coherent(c) && id != "" && !Seen(c, scope, id, now)
    ensures
      var kept := Without(c.entries, DedupKey(scope, id));
      var c' := RolledBack(Recorded(c, scope, id, now), scope, id);
      && c'.entries == (if c.capacity > 0 && |kept| == c.capacity then kept[1..] else kept)
      && !Seen(c', scope, id, later)
  {
    InsertThenRemove(c, DedupKey(scope, id), now);
    var c' := RolledBack(Recorded(c, scope, id, now), scope, id);
    FindNone(c'.entries, DedupKey(scope, id));
  }

  lemma InsertThenRemove(c: Cache, key: string, now: int)
    requires Coherent(c) && !Duplicate(c, key, now)
    ensures var kept := Without(c.entries, key);
      Remove(Insert(c, key, now), key).entries == if c.capacity > 0 && |kept| == c.capacity then kept[1..] else kept
    ensures !Has(Remove(Insert(c, key, now), key).entries, key)
  {
    var kept, r := Without(c.entries, key), Rec(key, now);
    WithoutKeeps(c.entries, key);
    InsertCoherent(c, key, now);
    var rest := if c.capacity > 0 && |kept| == c.capacity then kept[1..] else kept;
    assert Evict(kept + [r], c.capacity) == rest + [r];
    AppendThenRemove(rest, r);
  }

  lemma AppendThenRemove(rest: seq<Rec>, r: Rec)
    requires DistinctKeys(rest + [r])
    ensures Without(rest + [r], r.key) == rest && !Has(rest, r.key)
  {
    FindIs(rest + [r], |rest|);
    assert forall i :: 0 <= i < |rest| ==> (rest + [r])[i] == rest[i] && rest[i].key != r.key;
  }

  class DedupCache {
    const ttl: int
    const capacity: int
    const list: KeyedList

    ghost function View(): Cache
      reads this, list
    {
      Cache(ttl, capacity, list.entries)
    }

    ghost predicate Valid()
      reads this, list
    {
      list.Valid() && Coherent(View())
    }

    constructor (ttl: int, capacity: int)
      ensures Valid() && View() == New(ttl, capacity) && fresh(list)
    {
      this.ttl, this.capacity := ttl, capacity;
      list := new KeyedList();
    }

    method CheckAndRecord(scope: string, messageID: string, now: int) returns (duplicate: bool)
      requires Valid()
      modifies list
      ensures Valid() && duplicate == Seen(old(View()), scope, messageID, now)
      ensures View() == Recorded(old(View()), scope, messageID, now)
    {
      if messageID == "" {
        return false;
      }
      var key := DedupKey(scope, messageID);
      InsertCoherent(View(), key, now);
      list.Lookup(key);
      if key in list.index {
        var entry := list.index[key];
        if ttl <= 0 || now - entry.at <= ttl {
          return true;
        }
        list.Forget(entry);
      }
      list.PushBack(Rec(key, now));
      list.EvictOldest(capacity);
      return false;
    }

    method Rollback(scope: string, messageID: string)
      requires Valid()
      modifies list
      ensures Valid() && View() == RolledBack(old(View()), scope, messageID)
    {
      if messageID == "" {
        return;
      }
      var key := DedupKey(scope, messageID);
      list.Lookup(key);
      if key in list.index {
        list.Forget(list.index[key]);
      }
    }
  }
}
