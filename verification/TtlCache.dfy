/**
 The bounded cache behind replay protection and message dedup: an insertion-ordered list of
 (key, time) records, oldest first. Times and durations are whole nanoseconds; a ttl <= 0
 disables expiry and a capacity <= 0 disables the cap.
 */
module TtlCache {
  datatype Rec = Rec(key: string, at: int)

  datatype Cache = Cache(ttl: int, capacity: int, entries: seq<Rec>)

  ghost function New(ttl: int, capacity: int): Cache { Cache(ttl, capacity, []) }

  ghost predicate Has(entries: seq<Rec>, key: string) {
    exists r :: r in entries && r.key == key
  }

  /** Position of the record with this key, or the length of the list. */
  function Find(entries: seq<Rec>, key: string): (i: nat)
    ensures i <= |entries|
    ensures i < |entries| ==> entries[i].key == key
    ensures forall j :: 0 <= j < i ==> entries[j].key != key
  {
    if entries == [] || entries[0].key == key then 0 else 1 + Find(entries[1..], key)
  }

  function Without(entries: seq<Rec>, key: string): seq<Rec> {
    var i := Find(entries, key);
    if i < |entries| then entries[..i] + entries[i + 1..] else entries
  }

  /** The newest `capacity` records, when there is a cap. */
  ghost function Evict(entries: seq<Rec>, capacity: int): seq<Rec> {
    if capacity > 0 && |entries| > capacity then entries[|entries| - capacity..] else entries
  }

  /** Whether a lookup at time now still counts the record. */
  ghost predicate Remembers(ttl: int, r: Rec, now: int) {
    ttl <= 0 || now - r.at <= ttl
  }

  ghost predicate Duplicate(c: Cache, key: string, now: int) {
    var i := Find(c.entries, key);
    i < |c.entries| && Remembers(c.ttl, c.entries[i], now)
  }

  /** Check-and-insert: a duplicate changes nothing; otherwise the pair is recorded as newest. */
  ghost function Insert(c: Cache, key: string, now: int): Cache {
    if Duplicate(c, key, now) then c
    else c.(entries := Evict(Without(c.entries, key) + [Rec(key, now)], c.capacity))
  }

  ghost function DropOld(entries: seq<Rec>, cutoff: int): seq<Rec> {
    if entries == [] || entries[0].at > cutoff then entries else DropOld(entries[1..], cutoff)
  }

  /** The janitor's sweep, which stops at the first record it keeps. */
  ghost function Sweep(c: Cache, now: int): Cache {
    if c.ttl <= 0 then c else c.(entries := DropOld(c.entries, now - c.ttl))
  }

  ghost function Remove(c: Cache, key: string): Cache {
    c.(entries := Without(c.entries, key))
  }

  // ---------- coherence ----------

  ghost predicate DistinctKeys(entries: seq<Rec>) {
    forall i, j :: 0 <= i < j < |entries| ==> entries[i].key != entries[j].key
  }

  ghost predicate Coherent(c: Cache) {
    DistinctKeys(c.entries) && (c.capacity > 0 ==> |c.entries| <= c.capacity)
  }

  lemma FindIs(entries: seq<Rec>, i: nat)
    requires DistinctKeys(entries) && i < |entries|
    ensures Find(entries, entries[i].key) == i
  {
  }

  lemma WithoutKeeps(entries: seq<Rec>, key: string)
    requires DistinctKeys(entries)
    ensures DistinctKeys(Without(entries, key)) && !Has(Without(entries, key), key)
    ensures |Without(entries, key)| <= |entries|
  {
  }

  lemma FindNone(entries: seq<Rec>, key: string)
    requires !Has(entries, key)
    ensures Find(entries, key) == |entries|
  {
  }

  lemma InsertCoherent(c: Cache, key: string, now: int)
    requires Coherent(c)
    ensures Coherent(Insert(c, key, now))
    ensures |Without(c.entries, key) + [Rec(key, now)]| <= |c.entries| + 1
  {
  }

  // ---------- order ----------

  ghost predicate Sorted(entries: seq<Rec>) {
    forall i, j :: 0 <= i < j < |entries| ==> entries[i].at <= entries[j].at
  }

  ghost predicate NotAfter(entries: seq<Rec>, now: int) {
    forall i :: 0 <= i < |entries| ==> entries[i].at <= now
  }

  ghost function Newer(entries: seq<Rec>, cutoff: int): seq<Rec> {
    if entries == [] then []
    else (if entries[0].at > cutoff then [entries[0]] else []) + Newer(entries[1..], cutoff)
  }

  /** On a sorted list, stopping at the first survivor is an exact filter. */
  lemma {:induction false} SweepIsFilter(entries: seq<Rec>, cutoff: int)
    requires Sorted(entries)
    ensures DropOld(entries, cutoff) == Newer(entries, cutoff)
    ensures forall r :: r in DropOld(entries, cutoff) <==> r in entries && r.at > cutoff
  {
    if entries != [] {
      SweepIsFilter(entries[1..], cutoff);
      if entries[0].at > cutoff {
        AllNewer(entries, cutoff);
      }
    }
  }

  lemma {:induction false} AllNewer(entries: seq<Rec>, cutoff: int)
    requires forall i :: 0 <= i < |entries| ==> entries[i].at > cutoff
    ensures Newer(entries, cutoff) == entries
  {
    if entries != [] {
      AllNewer(entries[1..], cutoff);
    }
  }

  /** DropOld cuts a prefix of old records; what is left starts with a newer one. */
  lemma {:induction false} DropOldCut(entries: seq<Rec>, cutoff: int) returns (n: nat)
    ensures n <= |entries| && DropOld(entries, cutoff) == entries[n..]
    ensures forall i :: 0 <= i < n ==> entries[i].at <= cutoff
    ensures n < |entries| ==> entries[n].at > cutoff
  {
    if entries == [] || entries[0].at > cutoff {
      n := 0;
    } else {
      var m := DropOldCut(entries[1..], cutoff);
      n := m + 1;
    }
  }

  lemma SweepCoherent(c: Cache, now: int)
    requires Coherent(c)
    ensures Coherent(Sweep(c, now))
  {
    var n := DropOldCut(c.entries, now - c.ttl);
  }
}
