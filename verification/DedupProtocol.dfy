/**
 The /message protocol around the dedup cache: a client checks and records, delivers, and
 rolls back if delivery failed. Under the documented discipline it holds its scope's lock
 throughout; clients of different scopes interleave at every step.
 */
module DedupProtocol {
  import opened TtlCache
  import opened DedupCaches

  datatype Phase = Delivering | Succeeded | Failed

  /** A client between its fresh CheckAndRecord and its answer; rec is its record's position in `records`. */
  datatype Client = Client(scope: string, id: string, rec: int, phase: Phase)

  datatype Event =
    | Delivered(scope: string, id: string, rec: int)
    | Acked(scope: string, id: string)

  /**
   The system: the cache, the clients in flight, every fresh record ever made (whether or not
   it was rolled back later), what has happened, and the time of the latest step.
   */
  datatype System = System(cache: Cache, clients: map<int, Client>, records: seq<Rec>, log: seq<Event>, now: int)

  datatype Step =
    | Begin(client: int, scope: string, id: string, at: int)
    | Deliver(client: int, ok: bool)
    | Finish(client: int)

  ghost function Start(ttl: int, capacity: int, now: int): System {
    System(New(ttl, capacity), map[], [], [], now)
  }

  ghost predicate LockFree(s: System, scope: string) {
    forall c :: c in s.clients ==> s.clients[c].scope != scope
  }

  /** The clock does not go back, scopes are well formed, and with `locking` a scope has one client at a time. */
  ghost predicate Enabled(s: System, step: Step, locking: bool) {
    match step
    case Begin(c, scope, id, at) => c !in s.clients && IsScope(scope) && s.now <= at && (locking ==> LockFree(s, scope))
    case Deliver(c, _) => c in s.clients && s.clients[c].phase == Delivering
    case Finish(c) => c in s.clients && s.clients[c].phase != Delivering
  }

  ghost function Next(s: System, step: Step, locking: bool): System {
    if !Enabled(s, step, locking) then s
    else
      match step
      case Begin(c, scope, id, at) => BeginStep(s, c, scope, id, at)
      case Deliver(c, ok) =>
        var cl := s.clients[c];
        if ok then s.(clients := s.clients[c := cl.(phase := Succeeded)], log := s.log + [Delivered(cl.scope, cl.id, cl.rec)])
        else s.(clients := s.clients[c := cl.(phase := Failed)])
      case Finish(c) =>
        var cl := s.clients[c];
        if cl.phase == Succeeded then s.(clients := s.clients - {c}, log := s.log + [Acked(cl.scope, cl.id)])
        else s.(clients := s.clients - {c}, cache := RolledBack(s.cache, cl.scope, cl.id))
  }

  /** A duplicate is acked from the cache; anything else goes on to deliver. An empty id makes no record. */
  ghost function BeginStep(s: System, c: int, scope: string, id: string, at: int): System {
    if Seen(s.cache, scope, id, at) then s.(log := s.log + [Acked(scope, id)], now := at)
    else s.(cache := Recorded(s.cache, scope, id, at),
            clients := s.clients[c := Client(scope, id, if id == "" then -1 else |s.records|, Delivering)],
            records := s.records + (if id == "" then [] else [Rec(DedupKey(scope, id), at)]),
            now := at)
  }

  ghost function Exec(s: System, steps: seq<Step>, locking: bool): System
    decreases |steps|
  {
    if steps == [] then s else Exec(Next(s, steps[0], locking), steps[1..], locking)
  }

  // ---------- ack implies delivered ----------

  ghost predicate DeliveredIn(log: seq<Event>, scope: string, id: string) {
    exists j :: 0 <= j < |log| && log[j].Delivered? && log[j].scope == scope && log[j].id == id
  }

  ghost predicate AcksFollowDeliveries(log: seq<Event>) {
    forall i :: 0 <= i < |log| && log[i].Acked? ==> DeliveredIn(log[..i], log[i].scope, log[i].id)
  }

  ghost predicate InFlight(s: System, scope: string, id: string) {
    exists c :: c in s.clients && s.clients[c].scope == scope && s.clients[c].id == id
  }

  ghost predicate ClientsOk(s: System) {
    && (forall c :: c in s.clients ==> IsScope(s.clients[c].scope))
    && (forall c :: c in s.clients && s.clients[c].phase == Succeeded ==>
          DeliveredIn(s.log, s.clients[c].scope, s.clients[c].id))
  }

  /** Whatever the cache holds was delivered, or is being. */
  ghost predicate HeldOk(s: System) {
    forall scope, id :: IsScope(scope) && id != "" && Has(s.cache.entries, DedupKey(scope, id)) ==>
      DeliveredIn(s.log, scope, id) || InFlight(s, scope, id)
  }

  /** What every step keeps, with or without the lock. */
  ghost predicate HeldInv(s: System) {
    Coherent(s.cache) && ClientsOk(s) && HeldOk(s)
  }

  /** A retry that the cache answers while its message is in flight and was never delivered. */
  ghost predicate EarlyRetry(s: System, step: Step) {
    && step.Begin? && Seen(s.cache, step.scope, step.id, step.at)
    && InFlight(s, step.scope, step.id) && !DeliveredIn(s.log, step.scope, step.id)
  }

  ghost predicate NoEarlyRetry(s: System, steps: seq<Step>, locking: bool)
    decreases |steps|
  {
    steps != [] ==>
      && !(Enabled(s, steps[0], locking) && EarlyRetry(s, steps[0]))
      && NoEarlyRetry(Next(s, steps[0], locking), steps[1..], locking)
  }

  lemma DeliveredGrows(log: seq<Event>, e: Event, scope: string, id: string)
    ensures DeliveredIn(log, scope, id) ==> DeliveredIn(log + [e], scope, id)
    ensures e.Delivered? && e.scope == scope && e.id == id ==> DeliveredIn(log + [e], scope, id)
  {
    if DeliveredIn(log, scope, id) {
      var j :| 0 <= j < |log| && log[j].Delivered? && log[j].scope == scope && log[j].id == id;
      assert (log + [e])[j] == log[j];
    }
    assert (log + [e])[|log|] == e;
  }

  /** An event keeps the log in order exactly when it is no ack, or an ack of something delivered. */
  lemma AcksAfter(log: seq<Event>, e: Event)
    ensures AcksFollowDeliveries(log + [e]) <==>
      AcksFollowDeliveries(log) && (e.Acked? ==> DeliveredIn(log, e.scope, e.id))
  {
    var log' := log + [e];
    assert forall i :: 0 <= i < |log| ==> log'[i] == log[i] && log'[..i] == log[..i];
    assert log'[|log|] == e && log'[..|log|] == log;
  }

  lemma DuplicateHas(c: Cache, key: string, now: int)
    ensures Duplicate(c, key, now) ==> Has(c.entries, key)
    ensures Has(c.entries, key) <==> Find(c.entries, key) < |c.entries|
  {
  }

  lemma InsertHas(c: Cache, key: string, now: int, other: string)
    requires Has(Insert(c, key, now).entries, other) && other != key
    ensures Has(c.entries, other)
  {
  }

  lemma StepKeepsHeldInv(s: System, step: Step, locking: bool)
    requires HeldInv(s)
    ensures HeldInv(Next(s, step, locking))
  {
    if Enabled(s, step, locking) {
      match step
      case Begin(c, scope, id, at) => BeginKeepsHeldInv(s, c, scope, id, at);
      case Deliver(c, ok) => DeliverKeepsHeldInv(s, c, ok, locking);
      case Finish(c) => FinishKeepsHeldInv(s, c, locking);
    }
  }

  lemma BeginKeepsHeldInv(s: System, c: int, scope: string, id: string, at: int)
    requires HeldInv(s) && c !in s.clients && IsScope(scope)
    ensures HeldInv(BeginStep(s, c, scope, id, at))
  {
    var s' := BeginStep(s, c, scope, id, at);
    if Seen(s.cache, scope, id, at) {
      forall sc, i ensures DeliveredIn(s.log, sc, i) ==> DeliveredIn(s'.log, sc, i) {
        DeliveredGrows(s.log, Acked(scope, id), sc, i);
      }
      assert forall sc, i :: InFlight(s, sc, i) ==> InFlight(s', sc, i);
    } else {
      InsertCoherent(s.cache, DedupKey(scope, id), at);
      forall sc, i | IsScope(sc) && i != "" && Has(s'.cache.entries, DedupKey(sc, i))
        ensures DeliveredIn(s'.log, sc, i) || InFlight(s', sc, i)
      {
        if sc == scope && i == id {
          assert c in s'.clients;
        } else {
          if id != "" && DedupKey(sc, i) == DedupKey(scope, id) {
            DedupKeyInjective(sc, i, scope, id);
          }
          if id != "" {
            InsertHas(s.cache, DedupKey(scope, id), at, DedupKey(sc, i));
          }
          if InFlight(s, sc, i) {
            var d :| d in s.clients && s.clients[d].scope == sc && s.clients[d].id == i;
            assert d in s'.clients && s'.clients[d] == s.clients[d];
          }
        }
      }
    }
  }

  lemma DeliverKeepsHeldInv(s: System, c: int, ok: bool, locking: bool)
    requires HeldInv(s) && Enabled(s, Deliver(c, ok), locking)
    ensures HeldInv(Next(s, Deliver(c, ok), locking))
  {
    var s', cl := Next(s, Deliver(c, ok), locking), s.clients[c];
    var e := Delivered(cl.scope, cl.id, cl.rec);
    forall sc, i ensures DeliveredIn(s.log, sc, i) ==> DeliveredIn(s'.log, sc, i) {
      DeliveredGrows(s.log, e, sc, i);
    }
    DeliveredGrows(s.log, e, cl.scope, cl.id);
    forall sc, i | InFlight(s, sc, i) ensures InFlight(s', sc, i) {
      var d :| d in s.clients && s.clients[d].scope == sc && s.clients[d].id == i;
      assert d in s'.clients && s'.clients[d].scope == sc && s'.clients[d].id == i;
    }
  }

  lemma FinishKeepsHeldInv(s: System, c: int, locking: bool)
    requires HeldInv(s) && Enabled(s, Finish(c), locking)
    ensures HeldInv(Next(s, Finish(c), locking))
  {
    var s', cl := Next(s, Finish(c), locking), s.clients[c];
    WithoutKeeps(s.cache.entries, DedupKey(cl.scope, cl.id));
    forall sc, i ensures DeliveredIn(s.log, sc, i) ==> DeliveredIn(s'.log, sc, i) {
      DeliveredGrows(s.log, Acked(cl.scope, cl.id), sc, i);
    }
    forall sc, i | IsScope(sc) && i != "" && Has(s'.cache.entries, DedupKey(sc, i))
      ensures DeliveredIn(s'.log, sc, i) || InFlight(s', sc, i)
    {
      assert Has(s.cache.entries, DedupKey(sc, i));
      if !DeliveredIn(s.log, sc, i) {
        var d :| d in s.clients && s.clients[d].scope == sc && s.clients[d].id == i;
        assert d != c;
        assert d in s'.clients;
      }
    }
  }

  /** A step breaks the order of the log only by answering an early retry. */
  lemma StepAcks(s: System, step: Step, locking: bool)
    requires HeldInv(s)
    ensures AcksFollowDeliveries(Next(s, step, locking).log) <==>
      AcksFollowDeliveries(s.log) && !(Enabled(s, step, locking) && EarlyRetry(s, step))
  {
    if Enabled(s, step, locking) {
      match step
      case Begin(c, scope, id, at) =>
        DuplicateHas(s.cache, DedupKey(scope, id), at);
        AcksAfter(s.log, Acked(scope, id));
      case Deliver(c, ok) => AcksAfter(s.log, Delivered(s.clients[c].scope, s.clients[c].id, s.clients[c].rec));
      case Finish(c) => AcksAfter(s.log, Acked(s.clients[c].scope, s.clients[c].id));
    }
  }

  lemma {:induction false} RunAcksIff(s: System, steps: seq<Step>, locking: bool)
    requires HeldInv(s)
    ensures AcksFollowDeliveries(Exec(s, steps, locking).log) <==> AcksFollowDeliveries(s.log) && NoEarlyRetry(s, steps, locking)
    decreases |steps|
  {
    if steps != [] {
      StepKeepsHeldInv(s, steps[0], locking);
      StepAcks(s, steps[0], locking);
      RunAcksIff(Next(s, steps[0], locking), steps[1..], locking);
    }
  }

  /**
   In every run, with or without the lock, all acks come after a successful delivery of that very
   message exactly when no retry was answered while its message was in flight and undelivered.
   */
  lemma AcksImplyDeliveredIff(ttl: int, capacity: int, now: int, steps: seq<Step>, locking: bool)
    ensures AcksFollowDeliveries(Exec(Start(ttl, capacity, now), steps, locking).log)
       <==> NoEarlyRetry(Start(ttl, capacity, now), steps, locking)
  {
    RunAcksIff(Start(ttl, capacity, now), steps, locking);
  }

  /** Each client begins when no other client has its message in flight. */
  ghost predicate OnePerMessage(s: System, steps: seq<Step>, locking: bool)
    decreases |steps|
  {
    steps != [] ==>
      && (steps[0].Begin? && Enabled(s, steps[0], locking) ==> !InFlight(s, steps[0].scope, steps[0].id))
      && OnePerMessage(Next(s, steps[0], locking), steps[1..], locking)
  }

  lemma {:induction false} OnePerMessageIsNeverEarly(s: System, steps: seq<Step>, locking: bool)
    requires OnePerMessage(s, steps, locking)
    ensures NoEarlyRetry(s, steps, locking)
    decreases |steps|
  {
    if steps != [] {
      OnePerMessageIsNeverEarly(Next(s, steps[0], locking), steps[1..], locking);
    }
  }

  /** The lock admits one client per scope, so one per message. */
  lemma {:induction false} LockedIsOnePerMessage(s: System, steps: seq<Step>)
    ensures OnePerMessage(s, steps, true)
    decreases |steps|
  {
    if steps != [] {
      LockedIsOnePerMessage(Next(s, steps[0], true), steps[1..]);
    }
  }

  /** One client per message at a time is enough: clients of one scope may overlap. */
  lemma ExclusiveMessagesSuffice(ttl: int, capacity: int, now: int, steps: seq<Step>)
    requires OnePerMessage(Start(ttl, capacity, now), steps, false)
    ensures AcksFollowDeliveries(Exec(Start(ttl, capacity, now), steps, false).log)
  {
    OnePerMessageIsNeverEarly(Start(ttl, capacity, now), steps, false);
    AcksImplyDeliveredIff(ttl, capacity, now, steps, false);
  }

  /** Under the lock discipline every ack, cached or not, comes after a successful delivery of that very message. */
  lemma AckImpliesDelivered(ttl: int, capacity: int, now: int, steps: seq<Step>)
    ensures AcksFollowDeliveries(Exec(Start(ttl, capacity, now), steps, true).log)
  {
    LockedIsOnePerMessage(Start(ttl, capacity, now), steps);
    OnePerMessageIsNeverEarly(Start(ttl, capacity, now), steps, true);
    AcksImplyDeliveredIff(ttl, capacity, now, steps, true);
  }

  /** An early retry is possible without the lock: acked mid-delivery, although the only delivery then fails. */
  lemma UnlockedRetryIsLost(ttl: int, capacity: int, now: int, scope: string, id: string)
    requires IsScope(scope) && id != ""
    ensures
      var steps := [Begin(1, scope, id, now), Begin(2, scope, id, now), Deliver(1, false), Finish(1)];
      var s := Exec(Start(ttl, capacity, now), steps, false);
      s.log == [Acked(scope, id)] && s.clients == map[] && !Seen(s.cache, scope, id, now)
  {
    var steps := [Begin(1, scope, id, now), Begin(2, scope, id, now), Deliver(1, false), Finish(1)];
    var key, s0 := DedupKey(scope, id), Start(ttl, capacity, now);
    var s1 := Next(s0, steps[0], false);
    assert s1.cache.entries == [Rec(key, now)];
    var s2 := Next(s1, steps[1], false);
    assert s2 == s1.(log := [Acked(scope, id)]);
    var s3 := Next(s2, steps[2], false);
    var s4 := Next(s3, steps[3], false);
    assert s4.cache.entries == [] && s4.clients == map[];
    assert steps[1..] == [steps[1], steps[2], steps[3]] && steps[1..][1..] == [steps[2], steps[3]] && steps[1..][1..][1..] == [steps[3]];
    assert Exec(s4, [], false) == s4;
    assert Exec(s3, [steps[3]], false) == s4;
    assert Exec(s2, [steps[2], steps[3]], false) == s4;
    assert Exec(s1, steps[1..], false) == s4;
  }
}
