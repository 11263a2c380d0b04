/**
 The cache against its history. The specification keeps no list and evicts nothing: it
 remembers every fresh admission and every sweep, and answers from those alone.
 */
module CacheHistory {
  import opened TtlCache

  datatype Op = Check(key: string, at: int) | SweepAt(at: int)

  /** A run of the cache under a clock that never goes back. */
  ghost predicate Monotone(ops: seq<Op>, from: int) {
    ops != [] ==> from <= ops[0].at && Monotone(ops[1..], ops[0].at)
  }

  ghost function Apply(c: Cache, op: Op): Cache {
    match op
    case Check(key, t) => Insert(c, key, t)
    case SweepAt(t) => Sweep(c, t)
  }

  ghost function Run(c: Cache, ops: seq<Op>): Cache
    decreases |ops|
  {
    if ops == [] then c else Run(Apply(c, ops[0]), ops[1..])
  }

  /** The answers to the checks of a run: true for a duplicate. */
  ghost function Answers(c: Cache, ops: seq<Op>): seq<bool>
    decreases |ops|
  {
    if ops == [] then []
    else (if ops[0].Check? then [Duplicate(c, ops[0].key, ops[0].at)] else []) + Answers(Apply(c, ops[0]), ops[1..])
  }

  // ---------- the specification ----------

  datatype History = History(ttl: int, capacity: int, admitted: seq<Rec>, sweeps: seq<int>)

  /** Position of the latest fresh admission of key, or -1. */
  ghost function Latest(admitted: seq<Rec>, key: string): (i: int)
    ensures -1 <= i < |admitted|
    ensures i >= 0 ==> admitted[i].key == key
    ensures forall j :: i < j < |admitted| ==> admitted[j].key != key
  {
    if admitted == [] then -1
    else if admitted[|admitted| - 1].key == key then |admitted| - 1
    else Latest(admitted[..|admitted| - 1], key)
  }

  /**
   A pair is a duplicate when its latest fresh admission is at most ttl old, counting an age
   of exactly ttl unless a sweep ran at this same instant, and fewer than capacity fresh
   admissions followed it. A non-positive ttl or capacity removes its clause.
   */
  ghost predicate Replayed(h: History, key: string, t: int) {
    var i := Latest(h.admitted, key);
    i >= 0 && Young(h, h.admitted[i], t) && (h.capacity > 0 ==> |h.admitted| - 1 - i < h.capacity)
  }

  ghost predicate Young(h: History, r: Rec, t: int) {
    h.ttl <= 0 || t - r.at < h.ttl || (t - r.at == h.ttl && t !in h.sweeps)
  }

  ghost function Record(h: History, op: Op): History {
    match op
    case Check(key, t) => if Replayed(h, key, t) then h else h.(admitted := h.admitted + [Rec(key, t)])
    case SweepAt(t) => h.(sweeps := h.sweeps + [t])
  }

  ghost function RecordAll(h: History, ops: seq<Op>): History
    decreases |ops|
  {
    if ops == [] then h else RecordAll(Record(h, ops[0]), ops[1..])
  }

  ghost function Verdicts(h: History, ops: seq<Op>): seq<bool>
    decreases |ops|
  {
    if ops == [] then []
    else (if ops[0].Check? then [Replayed(h, ops[0].key, ops[0].at)] else []) + Verdicts(Record(h, ops[0]), ops[1..])
  }

  // ---------- simulation ----------

  /** Admission i can never be answered from again. */
  ghost predicate Dead(h: History, i: int, now: int)
    requires 0 <= i < |h.admitted|
  {
    || (h.ttl > 0 && (now - h.admitted[i].at > h.ttl || exists u :: u in h.sweeps && u - h.admitted[i].at >= h.ttl))
    || (h.capacity > 0 && |h.admitted| - 1 - i >= h.capacity)
  }

  /**
   The list is some expired records followed by the admissions from position p on; those
   before p are dead, and no sweep has reached those from p on.
   */
  ghost predicate Sim(c: Cache, h: History, now: int, expired: seq<Rec>, p: int) {
    && c.ttl == h.ttl && c.capacity == h.capacity && Coherent(c)
    && 0 <= p <= |h.admitted|
    && c.entries == expired + h.admitted[p..]
    && (forall r :: r in expired ==> h.ttl > 0 && now - r.at > h.ttl)
    && (forall i :: 0 <= i < p ==> Dead(h, i, now))
    && (forall i, u :: p <= i < |h.admitted| && u in h.sweeps ==> h.ttl > 0 ==> u - h.admitted[i].at < h.ttl)
    && Sorted(h.admitted) && NotAfter(h.admitted, now)
    && (forall u :: u in h.sweeps ==> u <= now)
  }

  lemma TickSim(c: Cache, h: History, now: int, expired: seq<Rec>, p: int, t: int)
    requires Sim(c, h, now, expired, p) && now <= t
    ensures Sim(c, h, t, expired, p)
  {
    forall i | 0 <= i < p ensures Dead(h, i, t) {
      assert Dead(h, i, now);
    }
  }

  lemma DeadIsNotReplayed(h: History, i: int, t: int)
    requires 0 <= i < |h.admitted| && Dead(h, i, t)
    requires forall u :: u in h.sweeps ==> u <= t
    ensures !(Young(h, h.admitted[i], t) && (h.capacity > 0 ==> |h.admitted| - 1 - i < h.capacity))
  {
  }

  lemma SameAnswer(c: Cache, h: History, expired: seq<Rec>, p: int, key: string, t: int)
    requires Sim(c, h, t, expired, p)
    ensures Duplicate(c, key, t) <==> Replayed(h, key, t)
  {
    var i := Latest(h.admitted, key);
    if i >= p {
      var j := |expired| + i - p;
      assert c.entries[j] == h.admitted[i];
      FindIs(c.entries, j);
    } else {
      OnlyExpired(c, h, expired, p, key);
      if i >= 0 {
        DeadIsNotReplayed(h, i, t);
      }
    }
  }

  /** A key not admitted since p is found, if at all, among the expired. */
  lemma OnlyExpired(c: Cache, h: History, expired: seq<Rec>, p: int, key: string)
    requires 0 <= p <= |h.admitted| && c.entries == expired + h.admitted[p..] && Latest(h.admitted, key) < p
    ensures var j := Find(c.entries, key); j < |c.entries| ==> c.entries[j] in expired
  {
  }

  lemma InsertSim(c: Cache, h: History, expired: seq<Rec>, p: int, key: string, t: int)
    returns (expired': seq<Rec>, p': int)
    requires Sim(c, h, t, expired, p)
    ensures Sim(Apply(c, Check(key, t)), Record(h, Check(key, t)), t, expired', p')
  {
    SameAnswer(c, h, expired, p, key, t);
    if Duplicate(c, key, t) {
      return expired, p;
    }
    expired', p' := DropKey(c, h, expired, p, key, t);
    var c1 := c.(entries := Without(c.entries, key));
    AppendSim(c1, h, expired', p', key, t);
    InsertCoherent(c, key, t);
    expired', p' := EvictSim(c1.entries + [Rec(key, t)], h.(admitted := h.admitted + [Rec(key, t)]), expired', p', t);
  }

  /** A list one record over the cap loses its oldest: an expired one, or one that a full cache has followed. */
  lemma EvictSim(entries: seq<Rec>, h: History, expired: seq<Rec>, p: int, t: int)
    returns (expired': seq<Rec>, p': int)
    requires 0 <= p <= |h.admitted| && entries == expired + h.admitted[p..]
    requires h.capacity > 0 ==> |entries| <= h.capacity + 1
    requires forall i :: 0 <= i < p ==> Dead(h, i, t)
    ensures p <= p' <= |h.admitted| && Evict(entries, h.capacity) == expired' + h.admitted[p'..]
    ensures forall r :: r in expired' ==> r in expired
    ensures forall i :: 0 <= i < p' ==> Dead(h, i, t)
  {
    expired', p' := expired, p;
    if h.capacity > 0 && |entries| > h.capacity {
      if expired != [] {
        expired' := expired[1..];
      } else {
        p' := p + 1;
      }
      assert entries[1..] == expired' + h.admitted[p'..];
    }
  }

  /** The record of a fresh admission at the end of both lists; only the bound may now be off by one. */
  lemma AppendSim(c: Cache, h: History, expired: seq<Rec>, p: int, key: string, t: int)
    requires Sim(c, h, t, expired, p) && !Has(c.entries, key)
    ensures
      var c', h' := c.(entries := c.entries + [Rec(key, t)]), h.(admitted := h.admitted + [Rec(key, t)]);
      && c'.entries == expired + h'.admitted[p..]
      && DistinctKeys(c'.entries)
      && (forall i :: 0 <= i < p ==> Dead(h', i, t))
      && (forall i, u :: p <= i < |h'.admitted| && u in h'.sweeps ==> h'.ttl > 0 ==> u - h'.admitted[i].at < h'.ttl)
      && Sorted(h'.admitted) && NotAfter(h'.admitted, t)
  {
    var c', h' := c.(entries := c.entries + [Rec(key, t)]), h.(admitted := h.admitted + [Rec(key, t)]);
    assert h'.admitted[p..] == h.admitted[p..] + [Rec(key, t)];
    forall i | 0 <= i < p ensures Dead(h', i, t) {
      assert Dead(h, i, t);
    }
    forall i | 0 <= i < |c.entries| ensures c.entries[i].key != key {
      assert c.entries[i] in c.entries;
    }
  }

  /** Taking an expired record out of the list: all admissions before it are expired too. */
  lemma DropKey(c: Cache, h: History, expired: seq<Rec>, p: int, key: string, t: int)
    returns (expired': seq<Rec>, p': int)
    requires Sim(c, h, t, expired, p) && !Duplicate(c, key, t)
    ensures Sim(c.(entries := Without(c.entries, key)), h, t, expired', p')
    ensures !Has(Without(c.entries, key), key)
  {
    var j := Find(c.entries, key);
    WithoutKeeps(c.entries, key);
    expired', p' := expired, p;
    if j < |expired| {
      expired' := DropFront(c, h, expired, p, key, t);
    } else if j < |c.entries| {
      expired', p' := DropLive(c, h, expired, p, key, t);
    } else {
      assert c.(entries := Without(c.entries, key)) == c;
    }
  }

  lemma DropLive(c: Cache, h: History, expired: seq<Rec>, p: int, key: string, t: int)
    returns (expired': seq<Rec>, p': int)
    requires Sim(c, h, t, expired, p) && !Duplicate(c, key, t) && |expired| <= Find(c.entries, key) < |c.entries|
    ensures Sim(c.(entries := Without(c.entries, key)), h, t, expired', p')
  {
    var j := Find(c.entries, key);
    WithoutKeeps(c.entries, key);
    p' := p + (j - |expired|) + 1;
    assert c.entries[j] == h.admitted[p' - 1];
    expired' := DropBack(h, expired, p, p' - 1, t);
    BackSim(c, h, expired, p, t, c.(entries := Without(c.entries, key)), expired', p');
  }

  lemma DropFront(c: Cache, h: History, expired: seq<Rec>, p: int, key: string, t: int) returns (expired': seq<Rec>)
    requires Sim(c, h, t, expired, p) && Find(c.entries, key) < |expired|
    ensures Sim(c.(entries := Without(c.entries, key)), h, t, expired', p)
  {
    var j := Find(c.entries, key);
    expired' := expired[..j] + expired[j + 1..];
    OutOfFront(expired, h.admitted[p..], j);
    WithoutKeeps(c.entries, key);
  }

  lemma BackSim(c: Cache, h: History, expired: seq<Rec>, p: int, t: int, c': Cache, expired': seq<Rec>, p': int)
    requires Sim(c, h, t, expired, p) && p <= p' <= |h.admitted| && h.ttl > 0
    requires c' == c.(entries := c'.entries) && Coherent(c') && c'.entries == expired' + h.admitted[p'..]
    requires forall r :: r in expired' ==> t - r.at > h.ttl
    requires forall i :: 0 <= i < p' ==> Dead(h, i, t)
    ensures Sim(c', h, t, expired', p')
  {
  }

  /** Taking out the expired admission at q, in the list since p: what is before it joins the expired. */
  lemma DropBack(h: History, expired: seq<Rec>, p: int, q: int, t: int) returns (expired': seq<Rec>)
    requires 0 <= p <= q < |h.admitted| && Sorted(h.admitted) && h.ttl > 0 && t - h.admitted[q].at > h.ttl
    requires forall r :: r in expired ==> t - r.at > h.ttl
    ensures var all, j := expired + h.admitted[p..], |expired| + q - p;
      j < |all| && all[..j] + all[j + 1..] == expired' + h.admitted[q + 1..]
    ensures forall r :: r in expired' ==> t - r.at > h.ttl
    ensures forall i :: 0 <= i <= q ==> Dead(h, i, t)
  {
    expired' := expired + h.admitted[p..q];
    OutOfBack(expired, h.admitted, p, q);
    ExpiredUpTo(h, q + 1, t);
    forall r | r in h.admitted[p..q] ensures t - r.at > h.ttl {
      var i :| p <= i < q && h.admitted[i] == r;
    }
  }

  lemma OutOfFront(a: seq<Rec>, b: seq<Rec>, j: nat)
    requires j < |a|
    ensures (a + b)[..j] + (a + b)[j + 1..] == (a[..j] + a[j + 1..]) + b
  {
  }

  lemma OutOfBack(a: seq<Rec>, b: seq<Rec>, p: int, q: int)
    requires 0 <= p <= q < |b|
    ensures var all, j := a + b[p..], |a| + q - p;
      j < |all| && all[..j] + all[j + 1..] == (a + b[p..q]) + b[q + 1..]
  {
  }

  /** An expired admission has only expired ones before it. */
  lemma ExpiredUpTo(h: History, p: int, t: int)
    requires Sorted(h.admitted) && 0 < p <= |h.admitted| && h.ttl > 0 && t - h.admitted[p - 1].at > h.ttl
    ensures forall i :: 0 <= i < p ==> t - h.admitted[i].at > h.ttl && Dead(h, i, t)
  {
  }

  lemma SweepSim(c: Cache, h: History, expired: seq<Rec>, p: int, t: int)
    returns (expired': seq<Rec>, p': int)
    requires Sim(c, h, t, expired, p)
    ensures Sim(Apply(c, SweepAt(t)), Record(h, SweepAt(t)), t, expired', p')
  {
    if c.ttl > 0 {
      p' := SweptTo(c, h, expired, p, t);
      expired' := [];
      SweepCoherent(c, t);
      DeadAfterSweep(h, p', t);
      SweptSim(c, h, expired, p, t, Sweep(c, t), p');
    } else {
      expired', p' := expired, p;
      DeadAfterSweep(h, p, t);
    }
  }

  lemma DeadAfterSweep(h: History, p: int, t: int)
    requires 0 <= p <= |h.admitted|
    requires forall i :: 0 <= i < p ==> Dead(h, i, t) || (h.ttl > 0 && t - h.admitted[i].at >= h.ttl)
    ensures forall i :: 0 <= i < p ==> Dead(Record(h, SweepAt(t)), i, t)
  {
    forall i | 0 <= i < p ensures Dead(Record(h, SweepAt(t)), i, t) {
      StillDead(h, i, t);
    }
  }

  lemma SweptSim(c: Cache, h: History, expired: seq<Rec>, p: int, t: int, c': Cache, p': int)
    requires Sim(c, h, t, expired, p) && p <= p' <= |h.admitted|
    requires c' == c.(entries := h.admitted[p'..]) && Coherent(c')
    requires forall i :: 0 <= i < p' ==> Dead(Record(h, SweepAt(t)), i, t)
    requires forall i :: p' <= i < |h.admitted| ==> t - h.admitted[i].at < h.ttl
    ensures Sim(c', Record(h, SweepAt(t)), t, [], p')
  {
    assert [] + h.admitted[p'..] == h.admitted[p'..];
  }

  /** A sweep only adds to what is dead: everything at least ttl old. */
  lemma StillDead(h: History, i: int, t: int)
    requires 0 <= i < |h.admitted| && (Dead(h, i, t) || (h.ttl > 0 && t - h.admitted[i].at >= h.ttl))
    ensures Dead(Record(h, SweepAt(t)), i, t)
  {
    var h' := Record(h, SweepAt(t));
    assert t in h'.sweeps && forall u :: u in h.sweeps ==> u in h'.sweeps;
  }

  /** Where a sweep stops: all admissions before p' have reached the ttl, none from p' on has. */
  lemma SweptTo(c: Cache, h: History, expired: seq<Rec>, p: int, t: int) returns (p': int)
    requires Sim(c, h, t, expired, p) && c.ttl > 0
    ensures p <= p' <= |h.admitted| && Sweep(c, t).entries == h.admitted[p'..]
    ensures forall i :: p <= i < p' ==> t - h.admitted[i].at >= h.ttl
    ensures forall i :: p' <= i < |h.admitted| ==> t - h.admitted[i].at < h.ttl
  {
    var d := DropOldCut(c.entries, t - c.ttl);
    assert forall i :: 0 <= i < |expired| ==> c.entries[i] in expired;
    assert d >= |expired|;
    assert forall m :: |expired| <= m < |c.entries| ==> c.entries[m] == h.admitted[p + (m - |expired|)];
    p' := p + (d - |expired|);
    assert c.entries[d..] == h.admitted[p'..];
    assert d < |c.entries| ==> c.entries[d] == h.admitted[p'];
    forall i | p <= i < p' ensures t - h.admitted[i].at >= h.ttl {
      assert c.entries[|expired| + (i - p)] == h.admitted[i];
    }
  }

  /** One operation keeps the simulation, and its answer, if it has one, is the same. */
  lemma StepSim(c: Cache, h: History, now: int, expired: seq<Rec>, p: int, op: Op)
    returns (expired': seq<Rec>, p': int)
    requires Sim(c, h, now, expired, p) && now <= op.at
    ensures op.Check? ==> (Duplicate(c, op.key, op.at) <==> Replayed(h, op.key, op.at))
    ensures Sim(Apply(c, op), Record(h, op), op.at, expired', p')
  {
    TickSim(c, h, now, expired, p, op.at);
    match op
    case Check(key, t) =>
      SameAnswer(c, h, expired, p, key, t);
      expired', p' := InsertSim(c, h, expired, p, key, t);
    case SweepAt(t) => expired', p' := SweepSim(c, h, expired, p, t);
  }

  lemma {:induction false} RunRefines(c: Cache, h: History, now: int, expired: seq<Rec>, p: int, ops: seq<Op>)
    requires Sim(c, h, now, expired, p) && Monotone(ops, now)
    ensures Answers(c, ops) == Verdicts(h, ops)
    decreases |ops|
  {
    if ops != [] {
      var expired', p' := StepSim(c, h, now, expired, p, ops[0]);
      RunRefines(Apply(c, ops[0]), Record(h, ops[0]), ops[0].at, expired', p', ops[1..]);
    }
  }

  ghost function NewHistory(ttl: int, capacity: int): History { History(ttl, capacity, [], []) }

  /** What a cache that already holds records knows of its past. */
  ghost function HistoryOfCache(c: Cache): History { History(c.ttl, c.capacity, c.entries, []) }

  lemma StartSim(c: Cache, h: History, now: int)
    requires Coherent(c) && Sorted(c.entries) && NotAfter(c.entries, now) && h == HistoryOfCache(c)
    ensures Sim(c, h, now, [], 0)
  {
    assert [] + h.admitted[0..] == c.entries;
  }

  /** Exact refinement from any coherent, sorted cache: each answer is the specification's. */
  lemma RefinesFrom(c: Cache, ops: seq<Op>, from: int)
    requires Coherent(c) && Sorted(c.entries) && NotAfter(c.entries, from) && Monotone(ops, from)
    ensures Answers(c, ops) == Verdicts(HistoryOfCache(c), ops)
  {
    StartSim(c, HistoryOfCache(c), from);
    RunRefines(c, HistoryOfCache(c), from, [], 0, ops);
  }

  /** Exact refinement: in every run from a new cache under a monotone clock each answer is the specification's. */
  lemma ExactRefinement(ttl: int, capacity: int, ops: seq<Op>, from: int)
    requires Monotone(ops, from)
    ensures Answers(New(ttl, capacity), ops) == Verdicts(NewHistory(ttl, capacity), ops)
  {
    RefinesFrom(New(ttl, capacity), ops, from);
  }

  // ---------- runs in parts ----------

  lemma {:induction false} VerdictsAppend(h: History, a: seq<Op>, b: seq<Op>)
    ensures RecordAll(h, a + b) == RecordAll(RecordAll(h, a), b)
    ensures Verdicts(h, a + b) == Verdicts(h, a) + Verdicts(RecordAll(h, a), b)
    decreases |a|
  {
    if a == [] {
      assert a + b == b;
    } else {
      assert (a + b)[0] == a[0] && (a + b)[1..] == a[1..] + b;
      VerdictsAppend(Record(h, a[0]), a[1..], b);
    }
  }

  /** Sweeps that no later check coincides with do not matter to it. */
  lemma {:induction false} VerdictsIgnoreSweeps(h: History, h': History, u: int, ops: seq<Op>, from: int)
    requires h' == h.(sweeps := h'.sweeps) && u < from && Monotone(ops, from)
    requires forall t :: t > u ==> (t in h.sweeps <==> t in h'.sweeps)
    ensures Verdicts(h, ops) == Verdicts(h', ops)
    decreases |ops|
  {
    if ops != [] {
      var op := ops[0];
      assert op.Check? ==> (Replayed(h, op.key, op.at) <==> Replayed(h', op.key, op.at));
      VerdictsIgnoreSweeps(Record(h, op), Record(h', op), u, ops[1..], op.at);
    }
  }

  lemma {:induction false} MonotoneFrom(ops: seq<Op>, from: int, later: int)
    requires Monotone(ops, later) && from <= later
    ensures Monotone(ops, from)
  {
  }

  lemma {:induction false} MonotoneAppend(a: seq<Op>, b: seq<Op>, from: int, mid: int)
    requires Monotone(a, from) && (forall i :: 0 <= i < |a| ==> a[i].at <= mid) && from <= mid && Monotone(b, mid)
    ensures Monotone(a + b, from)
    decreases |a|
  {
    if a == [] {
      assert a + b == b;
    } else {
      assert (a + b)[0] == a[0] && (a + b)[1..] == a[1..] + b;
      MonotoneAppend(a[1..], b, a[0].at, mid);
    }
  }

  /** A sweep changes no answer at any later time: the run without it answers the same. */
  lemma SweepInvisible(ttl: int, capacity: int, a: seq<Op>, u: int, b: seq<Op>, from: int)
    requires from <= u && Monotone(a, from) && (forall i :: 0 <= i < |a| ==> a[i].at <= u) && Monotone(b, u + 1)
    ensures Answers(New(ttl, capacity), a + [SweepAt(u)] + b) == Answers(New(ttl, capacity), a + b)
  {
    var h0 := NewHistory(ttl, capacity);
    MonotoneFrom(b, u, u + 1);
    MonotoneAppend(a, b, from, u);
    assert [SweepAt(u)][1..] == [];
    MonotoneAppend(a, [SweepAt(u)], from, u);
    MonotoneAppend(a + [SweepAt(u)], b, from, u);
    ExactRefinement(ttl, capacity, a + b, from);
    ExactRefinement(ttl, capacity, a + [SweepAt(u)] + b, from);
    VerdictsAppend(h0, a, b);
    VerdictsAppend(h0, a, [SweepAt(u)]);
    VerdictsAppend(h0, a + [SweepAt(u)], b);
    var h := RecordAll(h0, a);
    assert RecordAll(h, [SweepAt(u)]) == Record(h, SweepAt(u));
    assert Verdicts(h, [SweepAt(u)]) == [];
    VerdictsIgnoreSweeps(h, Record(h, SweepAt(u)), u, b, u + 1);
  }

  /** Under a monotone clock the list is always sorted by time, so every sweep is an exact filter. */
  lemma {:induction false} ListStaysSorted(c: Cache, ops: seq<Op>, from: int)
    requires Sorted(c.entries) && NotAfter(c.entries, from) && Monotone(ops, from)
    ensures Sorted(Run(c, ops).entries)
    decreases |ops|
  {
    if ops != [] {
      StepSorted(c, ops[0], from);
      ListStaysSorted(Apply(c, ops[0]), ops[1..], ops[0].at);
    }
  }

  lemma StepSorted(c: Cache, op: Op, from: int)
    requires Sorted(c.entries) && NotAfter(c.entries, from) && from <= op.at
    ensures Sorted(Apply(c, op).entries) && NotAfter(Apply(c, op).entries, op.at)
  {
    match op
    case Check(key, t) =>
      WithoutSorted(c.entries, key, from);
      AppendSorted(Without(c.entries, key), Rec(key, t), c.capacity);
    case SweepAt(t) =>
      var n := DropOldCut(c.entries, t - c.ttl);
  }

  lemma WithoutSorted(entries: seq<Rec>, key: string, now: int)
    requires Sorted(entries) && NotAfter(entries, now)
    ensures Sorted(Without(entries, key)) && NotAfter(Without(entries, key), now)
  {
  }

  lemma AppendSorted(entries: seq<Rec>, r: Rec, capacity: int)
    requires Sorted(entries) && NotAfter(entries, r.at)
    ensures Sorted(Evict(entries + [r], capacity)) && NotAfter(Evict(entries + [r], capacity), r.at)
  {
  }
}
