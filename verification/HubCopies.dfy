/**
 Exact accounting with any mix of filters. Publishing offers one copy of the entry to every
 matching subscriber and at most one to a backlog; over any run every copy offered is read,
 still queued, waiting in a backlog, left in a closed channel, dropped with a notification,
 or discarded by Release, and never in two of these places.
 */
module HubCopies {
  import opened Options
  import opened HubSpec
  import opened HubInvariants
  import HubFlow

  /** Occurrences of x in a sequence, and in all queues of a map. */
  ghost function Occ<E>(s: seq<E>, x: E): nat {
    if s == [] then 0 else (if s[0] == x then 1 else 0) + Occ(s[1..], x)
  }

  lemma {:induction false} OccConcat<E>(a: seq<E>, b: seq<E>, x: E)
    ensures Occ(a + b, x) == Occ(a, x) + Occ(b, x)
  {
    if a == [] {
      assert a + b == b;
    } else {
      assert (a + b)[1..] == a[1..] + b;
      OccConcat(a[1..], b, x);
    }
  }

  lemma OccSplit<E>(s: seq<E>, n: nat, x: E)
    requires n <= |s|
    ensures Occ(s, x) == Occ(s[..n], x) + Occ(s[n..], x)
  {
    assert s == s[..n] + s[n..];
    OccConcat(s[..n], s[n..], x);
  }

  ghost function Count<K(!new), E>(m: map<K, seq<E>>, x: E): nat
    decreases |m|
  {
    if m == map[] then 0
    else
      var k :| k in m;
      Occ(m[k], x) + Count(m - {k}, x)
  }

  /** The choice of key made by Count does not matter. */
  lemma {:induction false} CountSplit<K(!new), E>(m: map<K, seq<E>>, k: K, x: E)
    requires k in m
    ensures Count(m, x) == Occ(m[k], x) + Count(m - {k}, x)
    decreases |m|
  {
    var c :| c in m && Count(m, x) == Occ(m[c], x) + Count(m - {c}, x);
    if c != k {
      CountSplit(m - {c}, k, x);
      CountSplit(m - {k}, c, x);
      assert m - {c} - {k} == m - {k} - {c};
    }
  }

  ghost function At<K, E>(m: map<K, seq<E>>, k: K): seq<E> { if k in m then m[k] else [] }

  lemma CountSet<K(!new), E>(m: map<K, seq<E>>, k: K, v: seq<E>, x: E)
    ensures Count(m[k := v], x) + Occ(At(m, k), x) == Count(m, x) + Occ(v, x)
  {
    CountSplit(m[k := v], k, x);
    if k in m {
      CountSplit(m, k, x);
      assert m[k := v] - {k} == m - {k};
    } else {
      assert m[k := v] - {k} == m;
    }
  }

  lemma CountDelete<K(!new), E>(m: map<K, seq<E>>, k: K, x: E)
    ensures Count(m, x) == Count(m - {k}, x) + Occ(At(m, k), x)
  {
    if k in m { CountSplit(m, k, x); } else { assert m - {k} == m; }
  }

  /** Appending e to the queues in `to` adds one copy for each of them. */
  lemma {:induction false} CountPush<K(!new), E>(m: map<K, seq<E>>, m': map<K, seq<E>>, to: set<K>, e: E, x: E)
    requires m'.Keys == m.Keys && to <= m.Keys
    requires forall k :: k in m ==> m'[k] == if k in to then m[k] + [e] else m[k]
    ensures Count(m', x) == Count(m, x) + if x == e then |to| else 0
    decreases |m|
  {
    if m == map[] {
      assert m' == map[] && to == {};
    } else {
      var k :| k in m;
      CountSplit(m, k, x);
      CountSplit(m', k, x);
      CountPush(m - {k}, m' - {k}, to - {k}, e, x);
      if k in to {
        OccConcat(m[k], [e], x);
        assert to == (to - {k}) + {k};
      } else {
        assert to - {k} == to;
      }
    }
  }

  // ---------- where copies are ----------

  ghost function Buffers<E>(subs: map<int, Sub<E>>): map<int, seq<E>> {
    map id | id in subs :: subs[id].buf
  }

  ghost function Queued<E>(h: Hub<E>, x: E): nat { Count(Buffers(h.subs), x) }
  ghost function Backlogged<E>(h: Hub<E>, x: E): nat { Count(h.retained, x) }

  /** Unread in closed channels: discarded when their subscriber left. */
  ghost function Abandoned<E>(h: Hub<E>, x: E): nat { Count(Buffers(h.gone), x) }

  ghost function Copies<E>(h: Hub<E>, x: E): nat {
    Queued(h, x) + Backlogged(h, x) + Abandoned(h, x)
  }

  // ---------- what a step does to them ----------

  ghost function MatchingSubs<E>(h: Hub<E>, e: E): set<int> {
    set id | id in h.subs && Matches(h.keyOf, h.subs[id], Key(h.keyOf, e))
  }

  ghost function Repeat<E>(e: E, n: nat): seq<E> { seq(n, _ => e) }

  lemma {:induction false} RepeatOcc<E>(e: E, n: nat, x: E)
    ensures Occ(Repeat(e, n), x) == if x == e then n else 0
  {
    if n > 0 {
      RepeatOcc(e, n - 1, x);
      assert Repeat(e, n)[1..] == Repeat(e, n - 1);
    }
  }

  ghost function Offered<E>(h: Hub<E>, step: Step<E>): seq<E> {
    if step.DoPublish? then
      Repeat(step.e, |MatchingSubs(h, step.e)|) + (if ToBacklog(h, step.e) then [step.e] else [])
    else []
  }

  ghost function Taken<E>(h: Hub<E>, step: Step<E>): seq<E> {
    if step.DoReceive? && Receive(h, step.id).Got? then [Receive(h, step.id).entry] else []
  }

  ghost function Dropped<E>(h: Hub<E>, step: Step<E>): seq<E> {
    match step
    case DoPublish(e) => Repeat(e, |Refused(h, e)|) + Evicted(h, e)
    case DoUnsubscribe(id) => Trimmed(h, id)
    case _ => []
  }

  ghost function Released<E>(h: Hub<E>, step: Step<E>): seq<E> {
    if step.DoRelease? then Held(h, step.key) else []
  }

  /** Every copy of x a step finds or offers ends in exactly one place. */
  ghost predicate Balanced<E>(h: Hub<E>, step: Step<E>, x: E) {
    Copies(h, x) + Occ(Offered(h, step), x)
      == Copies(Next(h, step), x) + Occ(Taken(h, step), x) + Occ(Dropped(h, step), x) + Occ(Released(h, step), x)
  }

  lemma StepBalanced<E>(h: Hub<E>, step: Step<E>, x: E)
    requires Inv(h)
    ensures Balanced(h, step, x)
  {
    match step
    case DoRetain(k) => CountSet(h.retained, k, [], x);
    case DoRelease(k) => CountDelete(h.retained, k, x);
    case DoSubscribe(f) => SubscribeBalanced(h, f, x);
    case DoUnsubscribe(id) => UnsubscribeBalanced(h, id, x);
    case DoPublish(e) => PublishBalanced(h, e, x);
    case DoReceive(id) => ReceiveBalanced(h, id, x);
  }

  lemma SubscribeBalanced<E>(h: Hub<E>, f: string, x: E)
    requires Inv(h)
    ensures Balanced(h, DoSubscribe(f), x)
  {
    var h' := Subscribe(h, f);
    var id := h'.nextID;
    assert id in h.subs ==> ChannelOk(h, id, h.subs[id]);
    assert Buffers(h'.subs) == Buffers(h.subs)[id := Held(h, f)];
    CountSet(Buffers(h.subs), id, Held(h, f), x);
    CountSet(h.retained, f, [], x);
  }

  lemma UnsubscribeBalanced<E>(h: Hub<E>, id: int, x: E)
    requires Inv(h)
    ensures Balanced(h, DoUnsubscribe(id), x)
  {
    if id in h.subs {
      ChannelLeaves(h, id, x);
      if Requeues(h, id) {
        CountSet(h.retained, h.subs[id].filter, Newest(Unread(h, id)), x);
        UnreadOcc(h, id, x);
      }
    }
  }

  lemma ChannelLeaves<E>(h: Hub<E>, id: int, x: E)
    requires Inv(h) && id in h.subs
    ensures Queued(h, x) == Queued(Unsubscribe(h, id), x) + Occ(h.subs[id].buf, x)
    ensures Abandoned(Unsubscribe(h, id), x)
      == Abandoned(h, x) + Occ(if Requeues(h, id) then [] else h.subs[id].buf, x)
  {
    var h' := Unsubscribe(h, id);
    TakeOut(h.subs, h'.subs, id, x);
    assert id !in h.gone;
    PutIn(h.gone, h'.gone, id, x);
  }

  lemma TakeOut<E>(subs: map<int, Sub<E>>, subs': map<int, Sub<E>>, id: int, x: E)
    requires id in subs && subs' == subs - {id}
    ensures Count(Buffers(subs), x) == Count(Buffers(subs'), x) + Occ(subs[id].buf, x)
  {
    assert Buffers(subs') == Buffers(subs) - {id};
    CountDelete(Buffers(subs), id, x);
  }

  lemma PutIn<E>(subs: map<int, Sub<E>>, subs': map<int, Sub<E>>, id: int, x: E)
    requires id !in subs && id in subs' && subs' == subs[id := subs'[id]]
    ensures Count(Buffers(subs'), x) == Count(Buffers(subs), x) + Occ(subs'[id].buf, x)
  {
    assert Buffers(subs') == Buffers(subs)[id := subs'[id].buf];
    CountSet(Buffers(subs), id, subs'[id].buf, x);
  }

  lemma UnreadOcc<E>(h: Hub<E>, id: int, x: E)
    requires id in h.subs
    ensures Occ(h.subs[id].buf, x) + Occ(Held(h, h.subs[id].filter), x)
         == Occ(Oldest(Unread(h, id)), x) + Occ(Newest(Unread(h, id)), x)
  {
    OccConcat(h.subs[id].buf, Held(h, h.subs[id].filter), x);
    var unread := Unread(h, id);
    OccSplit(unread, |Oldest(unread)|, x);
    assert unread[..|Oldest(unread)|] == Oldest(unread) && unread[|Oldest(unread)|..] == Newest(unread);
  }

  lemma PublishBalanced<E>(h: Hub<E>, e: E, x: E)
    requires Inv(h)
    ensures Balanced(h, DoPublish(e), x)
  {
    var h' := Publish(h, e);
    PublishQueues(h, e, x);
    PublishBacklog(h, e, x);
    RepeatOcc(e, |MatchingSubs(h, e)|, x);
    RepeatOcc(e, |Refused(h, e)|, x);
    OccConcat(Repeat(e, |MatchingSubs(h, e)|), if ToBacklog(h, e) then [e] else [], x);
    OccConcat(Repeat(e, |Refused(h, e)|), Evicted(h, e), x);
    assert h'.gone == h.gone;
  }

  lemma PublishQueues<E>(h: Hub<E>, e: E, x: E)
    ensures Queued(h, x) + (if x == e then |MatchingSubs(h, e)| else 0)
         == Queued(Publish(h, e), x) + (if x == e then |Refused(h, e)| else 0)
  {
    var h' := Publish(h, e);
    var to := MatchingSubs(h, e) - Refused(h, e);
    forall id | id in h.subs
      ensures Buffers(h'.subs)[id] == if id in to then Buffers(h.subs)[id] + [e] else Buffers(h.subs)[id]
    {
      assert h'.subs[id] == Offer(h.keyOf, h.subs[id], e);
    }
    CountPush(Buffers(h.subs), Buffers(h'.subs), to, e, x);
    assert MatchingSubs(h, e) == to + Refused(h, e);
  }

  lemma PublishBacklog<E>(h: Hub<E>, e: E, x: E)
    ensures Backlogged(h, x) + Occ(if ToBacklog(h, e) then [e] else [], x)
         == Backlogged(Publish(h, e), x) + Occ(Evicted(h, e), x)
  {
    if ToBacklog(h, e) {
      var b := h.retained[Key(h.keyOf, e)];
      CountSet(h.retained, Key(h.keyOf, e), Appended(b, e), x);
      OccConcat(if |b| >= SUB_BUF_SIZE then b[1..] else b, [e], x);
    }
  }

  lemma ReceiveBalanced<E>(h: Hub<E>, id: int, x: E)
    requires Inv(h)
    ensures Balanced(h, DoReceive(id), x)
  {
    if Receive(h, id).Got? {
      var h' := AfterReceive(h, id);
      if id in h.subs {
        TakeFirst(h.subs, h'.subs, id, x);
        assert h'.gone == h.gone && h'.retained == h.retained;
      } else {
        TakeFirst(h.gone, h'.gone, id, x);
        assert h'.subs == h.subs && h'.retained == h.retained;
      }
    }
  }

  lemma TakeFirst<E>(subs: map<int, Sub<E>>, subs': map<int, Sub<E>>, id: int, x: E)
    requires id in subs && subs[id].buf != []
    requires subs' == subs[id := subs[id].(buf := subs[id].buf[1..])]
    ensures Count(Buffers(subs), x) == Count(Buffers(subs'), x) + Occ([subs[id].buf[0]], x)
  {
    assert Buffers(subs') == Buffers(subs)[id := subs[id].buf[1..]];
    CountSet(Buffers(subs), id, subs[id].buf[1..], x);
  }

  // ---------- whole runs ----------

  /** The copies of a run, by what became of them. */
  datatype Ledger<E> = Ledger(offered: seq<E>, taken: seq<E>, dropped: seq<E>, released: seq<E>)

  ghost function LedgerOf<E>(h: Hub<E>, steps: seq<Step<E>>): Ledger<E>
    decreases |steps|
  {
    if steps == [] then Ledger([], [], [], [])
    else
      var step, rest := steps[0], LedgerOf(Next(h, steps[0]), steps[1..]);
      Ledger(Offered(h, step) + rest.offered, Taken(h, step) + rest.taken,
             Dropped(h, step) + rest.dropped, Released(h, step) + rest.released)
  }

  lemma {:induction false} RunBalanced<E>(h: Hub<E>, steps: seq<Step<E>>, x: E)
    requires Inv(h)
    ensures
      var r := LedgerOf(h, steps);
      Copies(h, x) + Occ(r.offered, x)
        == Copies(Exec(h, steps), x) + Occ(r.taken, x) + Occ(r.dropped, x) + Occ(r.released, x)
    ensures HubFlow.Notified(h, steps) == |LedgerOf(h, steps).dropped|
    decreases |steps|
  {
    if steps != [] {
      var step, rest := steps[0], LedgerOf(Next(h, steps[0]), steps[1..]);
      StepBalanced(h, step, x);
      NextKeepsInv(h, step);
      RunBalanced(Next(h, step), steps[1..], x);
      OccConcat(Offered(h, step), rest.offered, x);
      OccConcat(Taken(h, step), rest.taken, x);
      OccConcat(Dropped(h, step), rest.dropped, x);
      OccConcat(Released(h, step), rest.released, x);
    }
  }

  /**
   From a new hub, after any run: the copies ever offered of any entry are those read, queued,
   in a backlog, discarded on leave, dropped and released, and the DropObserver was notified
   once for each dropped copy.
   */
  lemma EveryCopyAccountedFor<E>(keyOf: Option<E -> string>, steps: seq<Step<E>>, x: E)
    ensures
      var h := Exec(NewHub(keyOf), steps);
      var r := LedgerOf(NewHub(keyOf), steps);
      && Occ(r.offered, x)
           == Occ(r.taken, x) + Queued(h, x) + Backlogged(h, x) + Abandoned(h, x) + Occ(r.dropped, x) + Occ(r.released, x)
      && HubFlow.Notified(NewHub(keyOf), steps) == |r.dropped|
  {
    NewHubInv(keyOf);
    RunBalanced(NewHub(keyOf), steps, x);
    assert Buffers(NewHub(keyOf).subs) == map[] && Buffers(NewHub(keyOf).gone) == map[];
  }

  /**
   A departing subscriber's unread entries are discarded exactly when its filter is not
   retained or another subscriber carries it; none of them is notified as a drop.
   */
  lemma DiscardedOnLeaveIff<E>(h: Hub<E>, id: int, x: E)
    requires Inv(h) && id in h.subs
    ensures
      var f := h.subs[id].filter;
      var discarded := f !in h.retained || exists other :: other != id && Carries(h, other, f);
      && Abandoned(Unsubscribe(h, id), x) == Abandoned(h, x) + (if discarded then Occ(h.subs[id].buf, x) else 0)
      && (discarded ==> Observed(h, DoUnsubscribe(id)) == 0 && Unsubscribe(h, id).retained == h.retained)
  {
    var h', f := Unsubscribe(h, id), h.subs[id].filter;
    var rest := h.(subs := h.subs - {id});
    if Holds(rest, f) {
      var other :| other in rest.subs && rest.subs[other].filter == f;
      assert other != id && Carries(h, other, f);
    } else {
      forall other | other != id ensures !Carries(h, other, f) {
        assert other in rest.subs ==> rest.subs[other].filter != f;
      }
    }
    ChannelLeaves(h, id, x);
  }
}
