/**
 The dedup cache over whole runs of CheckAndRecord and Rollback: what an answer says about the
 calls before it, and that calls with an empty message id might as well not have been made.
 */
module DedupRuns {
  import opened TtlCache
  import opened DedupCaches

  datatype Op = Check(scope: string, id: string, at: int) | Undo(scope: string, id: string)

  ghost function Apply(c: Cache, op: Op): Cache {
    match op
    case Check(scope, id, at) => Recorded(c, scope, id, at)
    case Undo(scope, id) => RolledBack(c, scope, id)
  }

  ghost function Run(c: Cache, ops: seq<Op>): Cache
    decreases |ops|
  {
    if ops == [] then c else Run(Apply(c, ops[0]), ops[1..])
  }

  // ---------- opting out ----------

  /** The answers of the checks that name a message. */
  ghost function Answers(c: Cache, ops: seq<Op>): seq<bool>
    decreases |ops|
  {
    if ops == [] then []
    else (if ops[0].Check? && ops[0].id != "" then [Seen(c, ops[0].scope, ops[0].id, ops[0].at)] else [])
         + Answers(Apply(c, ops[0]), ops[1..])
  }

  /** The run without its empty-id calls. */
  function Named(ops: seq<Op>): seq<Op> {
    if ops == [] then [] else (if ops[0].id != "" then [ops[0]] else []) + Named(ops[1..])
  }

  /** Calls with an empty id are invisible: without them all other answers and the final list are the same. */
  lemma {:induction false} OptOutInvisible(c: Cache, ops: seq<Op>)
    ensures Run(c, ops) == Run(c, Named(ops)) && Answers(c, ops) == Answers(c, Named(ops))
    decreases |ops|
  {
    if ops != [] {
      OptOutInvisible(Apply(c, ops[0]), ops[1..]);
      if ops[0].id != "" {
        assert Named(ops)[0] == ops[0] && Named(ops)[1..] == Named(ops[1..]);
      } else {
        assert Named(ops) == Named(ops[1..]);
        assert Apply(c, ops[0]) == c;
        assert [] + Answers(c, ops[1..]) == Answers(c, ops[1..]);
      }
    }
  }

  /** They are never duplicates. */
  lemma OptOutNeverDuplicate(c: Cache, scope: string, at: int)
    ensures !Seen(c, scope, "", at)
  {
  }

  // ---------- what an answer means ----------

  ghost function After(start: Cache, ops: seq<Op>, n: nat): Cache
    requires n <= |ops|
  {
    if n == 0 then start else Apply(After(start, ops, n - 1), ops[n - 1])
  }

  /** Operation n is a check that finds its message fresh and records it. */
  ghost predicate Fresh(start: Cache, ops: seq<Op>, n: nat)
    requires n < |ops|
  {
    ops[n].Check? && ops[n].id != "" && !Seen(After(start, ops, n), ops[n].scope, ops[n].id, ops[n].at)
  }

  /** The latest fresh check of a message before n, unless it was rolled back since; else -1. */
  ghost function Standing(start: Cache, ops: seq<Op>, n: nat, scope: string, id: string): (i: int)
    requires n <= |ops|
    ensures -1 <= i < n && (i >= 0 ==> Fresh(start, ops, i) && ops[i].scope == scope && ops[i].id == id)
  {
    if n == 0 then -1
    else if ops[n - 1].scope == scope && ops[n - 1].id == id && ops[n - 1].Undo? then -1
    else if ops[n - 1].scope == scope && ops[n - 1].id == id && Fresh(start, ops, n - 1) then n - 1
    else Standing(start, ops, n - 1, scope, id)
  }

  /** Fresh checks from lo on, before hi. */
  ghost function FreshBetween(start: Cache, ops: seq<Op>, lo: nat, hi: nat): nat
    requires hi <= |ops|
    decreases hi
  {
    if hi <= lo then 0 else FreshBetween(start, ops, lo, hi - 1) + if Fresh(start, ops, hi - 1) then 1 else 0
  }

  ghost predicate Scoped(ops: seq<Op>) { forall i :: 0 <= i < |ops| ==> IsScope(ops[i].scope) }

  /** Records behind that of key, towards the newest. */
  ghost function Behind(entries: seq<Rec>, key: string): int { |entries| - 1 - Find(entries, key) }

  /** The list holds a message exactly as long as it stands, but for a full cache of fresh checks since. */
  ghost predicate Tracks(start: Cache, ops: seq<Op>, n: nat, scope: string, id: string)
    requires n <= |ops|
  {
    var i := Standing(start, ops, n, scope, id);
    TracksAt(After(start, ops, n), DedupKey(scope, id), i >= 0, if i >= 0 then ops[i].at else 0, FreshBetween(start, ops, i + 1, n))
  }

  /** The same for a key that stands or not, was recorded at this time, and has this many fresh checks since. */
  ghost predicate TracksAt(c: Cache, key: string, stands: bool, at: int, since: int) {
    if Has(c.entries, key) then stands && c.entries[Find(c.entries, key)].at == at && Behind(c.entries, key) <= since
    else stands ==> c.capacity > 0 && since >= c.capacity
  }

  lemma {:induction false} AfterCoherent(ttl: int, capacity: int, ops: seq<Op>, n: nat)
    requires n <= |ops|
    ensures var c := After(New(ttl, capacity), ops, n); Coherent(c) && c.ttl == ttl && c.capacity == capacity
  {
    if n > 0 {
      AfterCoherent(ttl, capacity, ops, n - 1);
      ApplyCoherent(After(New(ttl, capacity), ops, n - 1), ops[n - 1]);
    }
  }

  lemma ApplyCoherent(c: Cache, op: Op)
    requires Coherent(c)
    ensures Coherent(Apply(c, op)) && Apply(c, op).ttl == c.ttl && Apply(c, op).capacity == c.capacity
  {
    if op.id != "" {
      match op
      case Check(scope, id, at) => InsertCoherent(c, DedupKey(scope, id), at);
      case Undo(scope, id) => WithoutKeeps(c.entries, DedupKey(scope, id));
    }
  }

  /** Where a key is after something was done to the list: gone, or the same record with at most that many more behind it. */
  ghost predicate Moved(e: seq<Rec>, e': seq<Rec>, key: string, more: int) {
    Has(e', key) ==> Has(e, key) && e'[Find(e', key)] == e[Find(e, key)] && Behind(e', key) <= Behind(e, key) + more
  }

  lemma WithoutOther(e: seq<Rec>, other: string, key: string)
    requires DistinctKeys(e) && other != key
    ensures Has(Without(e, other), key) <==> Has(e, key)
    ensures Moved(e, Without(e, other), key, 0)
  {
    var e', j := Without(e, other), Find(e, other);
    WithoutKeeps(e, other);
    if Has(e, key) {
      var i := Find(e, key);
      assert i < |e|;
      assert e'[if j < i then i - 1 else i] == e[i];
      FindIs(e', if j < i then i - 1 else i);
    }
  }

  lemma AppendOther(e: seq<Rec>, r: Rec, key: string)
    requires DistinctKeys(e + [r]) && r.key != key
    ensures Has(e + [r], key) <==> Has(e, key)
    ensures Moved(e, e + [r], key, 1)
  {
    if Has(e, key) {
      var i := Find(e, key);
      assert (e + [r])[i] == e[i];
      FindIs(e + [r], i);
    }
  }

  /** Eviction takes a key out only if a full cache is behind it. */
  lemma EvictOther(e: seq<Rec>, capacity: int, key: string)
    requires DistinctKeys(e) && (capacity > 0 ==> |e| <= capacity + 1)
    ensures Moved(e, Evict(e, capacity), key, 0)
    ensures Has(e, key) && !Has(Evict(e, capacity), key) ==> capacity > 0 && Behind(e, key) >= capacity
  {
    if capacity > 0 && |e| > capacity && Has(e, key) {
      var i := Find(e, key);
      if i > 0 {
        assert e[1..][i - 1] == e[i];
        FindIs(e[1..], i - 1);
      }
    }
  }

  lemma InsertOther(c: Cache, other: string, at: int, key: string)
    requires Coherent(c) && !Duplicate(c, other, at) && other != key
    ensures Moved(c.entries, Insert(c, other, at).entries, key, 1)
    ensures Has(c.entries, key) && !Has(Insert(c, other, at).entries, key) ==> c.capacity > 0 && Behind(c.entries, key) + 1 >= c.capacity
  {
    var w := Without(c.entries, other);
    WithoutKeeps(c.entries, other);
    WithoutOther(c.entries, other, key);
    assert DistinctKeys(w + [Rec(other, at)]);
    AppendOther(w, Rec(other, at), key);
    EvictOther(w + [Rec(other, at)], c.capacity, key);
  }

  lemma InsertSelf(c: Cache, key: string, at: int)
    requires Coherent(c) && !Duplicate(c, key, at)
    ensures var e := Insert(c, key, at).entries; Has(e, key) && e[Find(e, key)] == Rec(key, at) && Behind(e, key) == 0
  {
    var e := Insert(c, key, at).entries;
    InsertCoherent(c, key, at);
    assert e[|e| - 1] == Rec(key, at);
    FindIs(e, |e| - 1);
  }

  lemma CheckTracks(c: Cache, k: string, t: int, key: string, stands: bool, at: int, since: int)
    requires Coherent(c) && !Duplicate(c, k, t) && TracksAt(c, key, stands, at, since)
    ensures if k == key then TracksAt(Insert(c, k, t), key, true, t, 0) else TracksAt(Insert(c, k, t), key, stands, at, since + 1)
  {
    if k == key {
      InsertSelf(c, key, t);
    } else {
      InsertOther(c, k, t, key);
    }
  }

  lemma UndoTracks(c: Cache, k: string, key: string, stands: bool, at: int, since: int)
    requires Coherent(c) && TracksAt(c, key, stands, at, since)
    ensures if k == key then TracksAt(Remove(c, k), key, false, 0, 0) else TracksAt(Remove(c, k), key, stands, at, since)
  {
    WithoutKeeps(c.entries, k);
    if k != key {
      WithoutOther(c.entries, k, key);
    }
  }

  /** What one more operation adds. */
  lemma OneMore(start: Cache, ops: seq<Op>, n: nat, scope: string, id: string)
    requires n < |ops|
    ensures
      var op, i := ops[n], Standing(start, ops, n, scope, id);
      var same, i' := op.scope == scope && op.id == id, Standing(start, ops, n + 1, scope, id);
      && After(start, ops, n + 1) == Apply(After(start, ops, n), op)
      && i' == (if same && op.Undo? then -1 else if same && Fresh(start, ops, n) then n else i)
      && FreshBetween(start, ops, i + 1, n + 1) == FreshBetween(start, ops, i + 1, n) + (if Fresh(start, ops, n) then 1 else 0)
      && FreshBetween(start, ops, n + 1, n + 1) == 0
  {
  }

  /** A key that does not stand is tracked whatever the count. */
  lemma NotStanding(c: Cache, key: string, at: int, since: int, at': int, since': int)
    requires TracksAt(c, key, false, at, since)
    ensures TracksAt(c, key, false, at', since')
  {
  }

  lemma TracksStep(ttl: int, capacity: int, ops: seq<Op>, n: nat, scope: string, id: string)
    requires n < |ops| && Scoped(ops) && IsScope(scope) && id != ""
    requires Tracks(New(ttl, capacity), ops, n, scope, id)
    ensures Tracks(New(ttl, capacity), ops, n + 1, scope, id)
  {
    var start, op, key := New(ttl, capacity), ops[n], DedupKey(scope, id);
    var c, i := After(start, ops, n), Standing(start, ops, n, scope, id);
    var at, since := if i >= 0 then ops[i].at else 0, FreshBetween(start, ops, i + 1, n);
    AfterCoherent(ttl, capacity, ops, n);
    OneMore(start, ops, n, scope, id);
    if op.id != "" {
      var k := DedupKey(op.scope, op.id);
      if k == key {
        DedupKeyInjective(op.scope, op.id, scope, id);
      }
      if op.Undo? {
        UndoTracks(c, k, key, i >= 0, at, since);
        if k == key {
          NotStanding(Remove(c, k), key, 0, 0, 0, FreshBetween(start, ops, 0, n + 1));
        }
      } else if Fresh(start, ops, n) {
        CheckTracks(c, k, op.at, key, i >= 0, at, since);
      }
    }
  }

  lemma {:induction false} AlwaysTracks(ttl: int, capacity: int, ops: seq<Op>, n: nat, scope: string, id: string)
    requires n <= |ops| && Scoped(ops) && IsScope(scope) && id != ""
    ensures Tracks(New(ttl, capacity), ops, n, scope, id)
  {
    if n > 0 {
      AlwaysTracks(ttl, capacity, ops, n - 1, scope, id);
      TracksStep(ttl, capacity, ops, n - 1, scope, id);
    }
  }

  /**
   What an answer means, in any run: a duplicate was recorded fresh before, not rolled back since,
   and is within the ttl; and such a message is a duplicate unless a full cache of fresh checks
   has followed it.
   */
  lemma DuplicateMeansStanding(ttl: int, capacity: int, ops: seq<Op>, n: nat)
    requires n < |ops| && Scoped(ops) && ops[n].Check? && ops[n].id != ""
    ensures
      var start, op := New(ttl, capacity), ops[n];
      var i := Standing(start, ops, n, op.scope, op.id);
      var young := i >= 0 && (ttl <= 0 || op.at - ops[i].at <= ttl);
      && (Seen(After(start, ops, n), op.scope, op.id, op.at) ==> young)
      && (young && (capacity <= 0 || FreshBetween(start, ops, i + 1, n) < capacity) ==>
            Seen(After(start, ops, n), op.scope, op.id, op.at))
  {
    AlwaysTracks(ttl, capacity, ops, n, ops[n].scope, ops[n].id);
    AfterCoherent(ttl, capacity, ops, n);
    var c, key := After(New(ttl, capacity), ops, n), DedupKey(ops[n].scope, ops[n].id);
    assert Has(c.entries, key) <==> Find(c.entries, key) < |c.entries|;
  }
}
