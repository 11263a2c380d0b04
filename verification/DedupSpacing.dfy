/**
 At-most-once delivery within the cache's bounds: under the lock discipline, two successful
 deliveries of one message are separated by more than the ttl, or by a full cache of fresh
 records made in between, rolled back or not.
 */
module DedupSpacing {
  import opened TtlCache
  import opened DedupCaches
  import opened DedupProtocol

  /** Each record of the list is some fresh record, in the order they were made. */
  ghost predicate Placed(entries: seq<Rec>, records: seq<Rec>, idx: seq<int>) {
    && |idx| == |entries|
    && (forall i, j :: 0 <= i < j < |idx| ==> idx[i] < idx[j])
    && (forall i :: 0 <= i < |idx| ==> 0 <= idx[i] < |records| && entries[i] == records[idx[i]])
  }

  /** Record r is past the ttl, or a full cache of records has followed it. */
  ghost predicate Past(s: System, r: int)
    requires 0 <= r < |s.records|
  {
    || (s.cache.ttl > 0 && s.now - s.records[r].at > s.cache.ttl)
    || (s.cache.capacity > 0 && |s.records| - 1 - r >= s.cache.capacity)
  }

  /** Records a and b are more than ttl apart, or have `capacity` fresh records strictly between them. */
  ghost predicate Apart(s: System, a: int, b: int)
    requires 0 <= a < |s.records| && 0 <= b < |s.records|
  {
    && a < b
    && (|| (s.cache.ttl > 0 && s.records[b].at - s.records[a].at > s.cache.ttl)
        || (s.cache.capacity > 0 && b - a - 1 >= s.cache.capacity))
  }

  /** r is a fresh record of this message, still in the list unless past. */
  ghost predicate RecordOf(s: System, idx: seq<int>, scope: string, id: string, r: int) {
    && IsScope(scope) && 0 <= r < |s.records| && s.records[r].key == DedupKey(scope, id)
    && (Past(s, r) || r in idx)
  }

  ghost predicate DeliveriesOk(s: System, idx: seq<int>) {
    forall i :: 0 <= i < |s.log| && s.log[i].Delivered? && s.log[i].id != "" ==>
      RecordOf(s, idx, s.log[i].scope, s.log[i].id, s.log[i].rec)
  }

  /** A client's record is behind those of all deliveries of its message, unless it is the delivered one. */
  ghost predicate ClientSpaced(s: System, idx: seq<int>, cl: Client) {
    && RecordOf(s, idx, cl.scope, cl.id, cl.rec)
    && (forall i :: 0 <= i < |s.log| && s.log[i].Delivered? && s.log[i].scope == cl.scope && s.log[i].id == cl.id ==>
          0 <= s.log[i].rec < |s.records|
          && (Apart(s, s.log[i].rec, cl.rec) || (cl.phase == Succeeded && s.log[i].rec == cl.rec)))
  }

  ghost predicate ClientsSpaced(s: System, idx: seq<int>) {
    && (forall c :: c in s.clients && s.clients[c].id != "" ==> ClientSpaced(s, idx, s.clients[c]))
    && (forall c, d :: c in s.clients && d in s.clients && s.clients[c].scope == s.clients[d].scope ==> c == d)
  }

  /** The property itself: any two deliveries of one message in the log are apart. */
  ghost predicate DeliveriesApart(s: System) {
    forall i, j :: 0 <= i < j < |s.log| && SameMessage(s.log[i], s.log[j]) ==>
      && 0 <= s.log[i].rec < |s.records| && 0 <= s.log[j].rec < |s.records|
      && Apart(s, s.log[i].rec, s.log[j].rec)
  }

  ghost predicate SameMessage(a: Event, b: Event) {
    a.Delivered? && b.Delivered? && a.scope == b.scope && a.id == b.id && a.id != ""
  }

  ghost predicate SpaceInv(s: System, idx: seq<int>) {
    && Coherent(s.cache) && Placed(s.cache.entries, s.records, idx) && NotAfter(s.records, s.now)
    && DeliveriesOk(s, idx) && ClientsSpaced(s, idx) && DeliveriesApart(s)
  }

  // ---------- the list and the records ----------

  lemma PlaceWithout(entries: seq<Rec>, records: seq<Rec>, idx: seq<int>, key: string) returns (idx': seq<int>)
    requires Placed(entries, records, idx)
    ensures Placed(Without(entries, key), records, idx')
    ensures forall r :: r in idx' ==> r in idx
    ensures forall r :: r in idx && r !in idx' ==> Find(entries, key) < |entries| && records[r] == entries[Find(entries, key)]
  {
    var i := Find(entries, key);
    idx' := idx;
    if i < |entries| {
      idx' := idx[..i] + idx[i + 1..];
      RemovePlace(entries, records, idx, i);
    }
  }

  lemma RemovePlace(entries: seq<Rec>, records: seq<Rec>, idx: seq<int>, i: nat)
    requires Placed(entries, records, idx) && i < |entries|
    ensures Placed(entries[..i] + entries[i + 1..], records, idx[..i] + idx[i + 1..])
    ensures forall r :: r in idx ==> r in idx[..i] + idx[i + 1..] || r == idx[i]
  {
  }

  lemma PlaceAppend(entries: seq<Rec>, records: seq<Rec>, idx: seq<int>, r: Rec)
    requires Placed(entries, records, idx)
    ensures Placed(entries + [r], records + [r], idx + [|records|])
  {
  }

  lemma PlaceEvict(entries: seq<Rec>, records: seq<Rec>, idx: seq<int>, capacity: int) returns (idx': seq<int>)
    requires Placed(entries, records, idx) && (capacity > 0 ==> |entries| <= capacity + 1)
    ensures Placed(Evict(entries, capacity), records, idx')
    ensures forall r :: r in idx && r !in idx' ==> capacity > 0 && |records| - 1 - r >= capacity
  {
    idx' := idx;
    if capacity > 0 && |entries| > capacity {
      SpreadOut(idx, 0, |idx| - 1);
      idx' := idx[1..];
      forall r | r in idx && r != idx[0] ensures r in idx' {
        var j :| 0 <= j < |idx| && idx[j] == r;
        assert idx'[j - 1] == r;
      }
    }
  }

  lemma PlaceInsert(c: Cache, records: seq<Rec>, idx: seq<int>, key: string, at: int) returns (idx': seq<int>)
    requires Coherent(c) && Placed(c.entries, records, idx) && !Duplicate(c, key, at)
    ensures Placed(Insert(c, key, at).entries, records + [Rec(key, at)], idx') && |records| in idx'
    ensures forall r :: r in idx && r !in idx' ==>
      0 <= r < |records| && (ExpiredAt(c, records[r], at) || (c.capacity > 0 && |records| - r >= c.capacity))
  {
    InsertCoherent(c, key, at);
    var w := Without(c.entries, key);
    var kept := PlaceWithout(c.entries, records, idx, key);
    PlaceAppend(w, records, kept, Rec(key, at));
    var all := kept + [|records|];
    idx' := PlaceEvict(w + [Rec(key, at)], records + [Rec(key, at)], all, c.capacity);
    assert forall r :: r in kept ==> r in all;
    assert all[|all| - 1] == |records|;
    assert |records| in idx' by {
      assert |records| in all;
    }
  }

  ghost predicate ExpiredAt(c: Cache, r: Rec, at: int) { c.ttl > 0 && at - r.at > c.ttl }

  /** Increasing positions are at least as far apart as their indices. */
  lemma {:induction false} SpreadOut(idx: seq<int>, i: int, j: int)
    requires (forall a, b :: 0 <= a < b < |idx| ==> idx[a] < idx[b]) && 0 <= i <= j < |idx|
    ensures idx[j] - idx[i] >= j - i
    decreases j - i
  {
    if i < j {
      SpreadOut(idx, i, j - 1);
    }
  }

  // ---------- steps ----------

  lemma StepKeepsSpaceInv(s: System, idx: seq<int>, step: Step) returns (idx': seq<int>)
    requires SpaceInv(s, idx)
    ensures SpaceInv(Next(s, step, true), idx')
  {
    idx' := idx;
    if Enabled(s, step, true) {
      match step
      case Begin(c, scope, id, at) => idx' := BeginKeeps(s, idx, c, scope, id, at);
      case Deliver(c, ok) => DeliverKeeps(s, idx, c, ok);
      case Finish(c) => idx' := FinishKeeps(s, idx, c);
    }
  }

  lemma BeginKeeps(s: System, idx: seq<int>, c: int, scope: string, id: string, at: int) returns (idx': seq<int>)
    requires SpaceInv(s, idx) && Enabled(s, Begin(c, scope, id, at), true)
    ensures SpaceInv(BeginStep(s, c, scope, id, at), idx')
  {
    idx' := idx;
    if Seen(s.cache, scope, id, at) {
      Tick(s, idx, at);
      LogAck(s.(now := at), idx, scope, id);
    } else if id == "" {
      Tick(s, idx, at);
      Optout(s.(now := at), idx, c, scope);
    } else {
      idx' := RecordKeeps(s, idx, c, scope, id, at);
    }
  }

  lemma FinishKeeps(s: System, idx: seq<int>, c: int) returns (idx': seq<int>)
    requires SpaceInv(s, idx) && Enabled(s, Finish(c), true)
    ensures SpaceInv(Next(s, Finish(c), true), idx')
  {
    idx' := idx;
    var cl := s.clients[c];
    if cl.phase == Failed && cl.id != "" {
      idx' := RollbackKeeps(s, idx, c);
    } else {
      Gone(s, idx, c);
      if cl.phase == Succeeded {
        LogAck(s.(clients := s.clients - {c}), idx, cl.scope, cl.id);
      }
    }
  }

  lemma Tick(s: System, idx: seq<int>, at: int)
    requires SpaceInv(s, idx) && s.now <= at
    ensures SpaceInv(s.(now := at), idx)
  {
  }

  /** A client that opted out of dedup has no record. */
  lemma Optout(s: System, idx: seq<int>, c: int, scope: string)
    requires SpaceInv(s, idx) && c !in s.clients && LockFree(s, scope)
    ensures SpaceInv(s.(clients := s.clients[c := Client(scope, "", -1, Delivering)]), idx)
  {
  }

  lemma Gone(s: System, idx: seq<int>, c: int)
    requires SpaceInv(s, idx)
    ensures SpaceInv(s.(clients := s.clients - {c}), idx)
  {
  }

  /** An ack adds no delivery. */
  lemma LogAck(s: System, idx: seq<int>, scope: string, id: string)
    requires SpaceInv(s, idx)
    ensures SpaceInv(s.(log := s.log + [Acked(scope, id)]), idx)
  {
    var s' := s.(log := s.log + [Acked(scope, id)]);
    forall c | c in s'.clients && s'.clients[c].id != "" ensures ClientSpaced(s', idx, s'.clients[c]) {
      assert ClientSpaced(s, idx, s.clients[c]);
    }
  }

  lemma RecordKeeps(s: System, idx: seq<int>, c: int, scope: string, id: string, at: int) returns (idx': seq<int>)
    requires SpaceInv(s, idx) && Enabled(s, Begin(c, scope, id, at), true)
    requires id != "" && !Seen(s.cache, scope, id, at)
    ensures SpaceInv(BeginStep(s, c, scope, id, at), idx')
  {
    var key, s' := DedupKey(scope, id), BeginStep(s, c, scope, id, at);
    InsertCoherent(s.cache, key, at);
    idx' := PlaceInsert(s.cache, s.records, idx, key, at);
    forall r | 0 <= r < |s.records| && (Past(s, r) || r in idx) ensures Past(s', r) || r in idx' {
    }
    forall d | d in s'.clients && s'.clients[d].id != "" ensures ClientSpaced(s', idx', s'.clients[d]) {
      if d == c {
        forall i | 0 <= i < |s.log| && s.log[i].Delivered? && s.log[i].scope == scope && s.log[i].id == id
          ensures 0 <= s.log[i].rec < |s.records| && Apart(s', s.log[i].rec, |s.records|)
        {
          FreshIsApart(s, idx, scope, id, at, s.log[i].rec);
        }
      } else {
        assert ClientSpaced(s, idx, s.clients[d]);
      }
    }
  }

  /** A fresh answer for a message means its earlier records are past. */
  lemma FreshIsApart(s: System, idx: seq<int>, scope: string, id: string, at: int, r: int)
    requires Coherent(s.cache) && Placed(s.cache.entries, s.records, idx) && RecordOf(s, idx, scope, id, r)
    requires s.now <= at && !Duplicate(s.cache, DedupKey(scope, id), at)
    ensures ExpiredAt(s.cache, s.records[r], at) || (s.cache.capacity > 0 && |s.records| - 1 - r >= s.cache.capacity)
  {
  }

  lemma DeliverKeeps(s: System, idx: seq<int>, c: int, ok: bool)
    requires SpaceInv(s, idx) && Enabled(s, Deliver(c, ok), true)
    ensures SpaceInv(Next(s, Deliver(c, ok), true), idx)
  {
    var s', cl := Next(s, Deliver(c, ok), true), s.clients[c];
    assert cl.id != "" ==> ClientSpaced(s, idx, cl);
    if ok {
      LogDelivery(s, idx, cl);
    }
    forall d | d in s'.clients && s'.clients[d].id != "" ensures ClientSpaced(s', idx, s'.clients[d]) {
      assert ClientSpaced(s, idx, s.clients[d]);
      var phase := if d == c then (if ok then Succeeded else Failed) else s.clients[d].phase;
      ClientAfterDelivery(s, s', idx, s.clients[d], phase, cl);
    }
  }

  /** The delivered client's own record is its latest delivery; other clients are of other scopes. */
  lemma ClientAfterDelivery(s: System, s': System, idx: seq<int>, d: Client, phase: Phase, cl: Client)
    requires ClientSpaced(s, idx, d) && d.id != "" && (d.phase == Succeeded ==> phase == Succeeded)
    requires s' == s.(clients := s'.clients, log := s'.log)
    requires s'.log == s.log || s'.log == s.log + [Delivered(cl.scope, cl.id, cl.rec)]
    requires s'.log == s.log || d.scope != cl.scope || (d == cl && phase == Succeeded)
    ensures ClientSpaced(s', idx, d.(phase := phase))
  {
  }

  /** A delivery joins the log behind all earlier ones of its message. */
  lemma LogDelivery(s: System, idx: seq<int>, cl: Client)
    requires DeliveriesOk(s, idx) && DeliveriesApart(s) && cl.phase == Delivering
    requires cl.id != "" ==> ClientSpaced(s, idx, cl)
    ensures var s' := s.(log := s.log + [Delivered(cl.scope, cl.id, cl.rec)]); DeliveriesOk(s', idx) && DeliveriesApart(s')
  {
  }

  lemma RollbackKeeps(s: System, idx: seq<int>, c: int) returns (idx': seq<int>)
    requires SpaceInv(s, idx) && Enabled(s, Finish(c), true) && s.clients[c].phase == Failed && s.clients[c].id != ""
    ensures SpaceInv(Next(s, Finish(c), true), idx')
  {
    var cl := s.clients[c];
    assert ClientSpaced(s, idx, cl);
    Gone(s, idx, c);
    idx' := RemoveKeeps(s.(clients := s.clients - {c}), idx, cl.scope, cl.id);
  }

  /** Taking a message out of the cache when nobody holds its scope and its deliveries are all past. */
  lemma RemoveKeeps(s: System, idx: seq<int>, scope: string, id: string) returns (idx': seq<int>)
    requires SpaceInv(s, idx) && IsScope(scope) && id != "" && LockFree(s, scope)
    requires forall i :: 0 <= i < |s.log| && s.log[i].Delivered? && s.log[i].scope == scope && s.log[i].id == id ==>
      0 <= s.log[i].rec < |s.records| && Past(s, s.log[i].rec)
    ensures SpaceInv(s.(cache := RolledBack(s.cache, scope, id)), idx')
  {
    var s' := s.(cache := RolledBack(s.cache, scope, id));
    WithoutKeeps(s.cache.entries, DedupKey(scope, id));
    idx' := PlaceWithout(s.cache.entries, s.records, idx, DedupKey(scope, id));
    forall i | 0 <= i < |s.log| && s.log[i].Delivered? && s.log[i].id != ""
      ensures RecordOf(s', idx', s.log[i].scope, s.log[i].id, s.log[i].rec)
    {
      StillRecordOf(s, idx, idx', scope, id, s.log[i].scope, s.log[i].id, s.log[i].rec);
    }
    forall d | d in s.clients && s.clients[d].id != "" ensures ClientSpaced(s', idx', s.clients[d]) {
      assert ClientSpaced(s, idx, s.clients[d]);
      StillRecordOf(s, idx, idx', scope, id, s.clients[d].scope, s.clients[d].id, s.clients[d].rec);
    }
  }

  /** A removal touches only the records of its own message. */
  lemma StillRecordOf(s: System, idx: seq<int>, idx': seq<int>, scope: string, id: string, scope': string, id': string, r: int)
    requires IsScope(scope) && RecordOf(s, idx, scope', id', r)
    requires scope' == scope && id' == id ==> Past(s, r)
    requires forall x :: x in idx && x !in idx' ==> 0 <= x < |s.records| && s.records[x].key == DedupKey(scope, id)
    ensures RecordOf(s.(cache := RolledBack(s.cache, scope, id)), idx', scope', id', r)
  {
    if r in idx && r !in idx' {
      DedupKeyInjective(scope', id', scope, id);
    }
  }

  lemma {:induction false} RunKeepsSpaceInv(s: System, idx: seq<int>, steps: seq<Step>) returns (idx': seq<int>)
    requires SpaceInv(s, idx)
    ensures SpaceInv(Exec(s, steps, true), idx')
    decreases |steps|
  {
    idx' := idx;
    if steps != [] {
      var mid := StepKeepsSpaceInv(s, idx, steps[0]);
      idx' := RunKeepsSpaceInv(Next(s, steps[0], true), mid, steps[1..]);
    }
  }

  /** In every run under the lock discipline all deliveries of one message are that far apart. */
  lemma DeliveriesAreApart(ttl: int, capacity: int, now: int, steps: seq<Step>)
    ensures DeliveriesApart(Exec(Start(ttl, capacity, now), steps, true))
  {
    var idx := RunKeepsSpaceInv(Start(ttl, capacity, now), [], steps);
  }

  /** With neither expiry nor cap no message is ever delivered twice. */
  lemma UnboundedDeliversOnce(now: int, steps: seq<Step>, i: int, j: int)
    requires var s := Exec(Start(0, 0, now), steps, true); 0 <= i < j < |s.log| && s.log[i].Delivered? && s.log[i].id != ""
    ensures var s := Exec(Start(0, 0, now), steps, true); !SameMessage(s.log[i], s.log[j])
  {
    DeliveriesAreApart(0, 0, now, steps);
    SettingsStay(Start(0, 0, now), steps, true);
  }

  lemma {:induction false} SettingsStay(s: System, steps: seq<Step>, locking: bool)
    ensures var s' := Exec(s, steps, locking); s'.cache.ttl == s.cache.ttl && s'.cache.capacity == s.cache.capacity
    decreases |steps|
  {
    if steps != [] {
      SettingsStay(Next(s, steps[0], locking), steps[1..], locking);
    }
  }
}
