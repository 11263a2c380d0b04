/**
 The hub as the program has it: an object whose fields the methods update, with the loops of
 the source. Every method is proved equal to its step in HubSpec, whose runs the theorems are
 about. A subscriber's channel is its bounded buffer; closing it moves it to `gone`.
 */
module LogHub {
  import opened Options
  import opened HubSpec

  class DropObserver {
    var drops: nat

    constructor ()
      ensures drops == 0
    {
      drops := 0;
    }

    method ObserveDrop()
      modifies this
      ensures drops == old(drops) + 1
    {
      drops := drops + 1;
    }
  }

  /** The next key a range over a map yields: any of those left. */
  method AnyOf<T>(left: set<T>) returns (x: T)
    requires left != {}
    ensures x in left
  {
    x :| x in left;
  }

  class LiveHub<E> {
    const keyOf: Option<E -> string>
    const dropObserver: DropObserver?
    var subs: map<int, Sub<E>>
    var nextID: int
    var retained: map<string, seq<E>>
    /** Closed channels, which a departed subscriber's reader may still hold. */
    var gone: map<int, Sub<E>>

    ghost function View(): Hub<E>
      reads this
    {
      Hub(keyOf, subs, nextID, retained, gone)
    }

    /** The drops the observer has been told of; a hub without observer counts none. */
    ghost predicate Notified(before: nat, now: nat, drops: nat) {
      now == before + if dropObserver == null then 0 else drops
    }

    ghost function Drops(): nat
      reads dropObserver
    {
      if dropObserver == null then 0 else dropObserver.drops
    }

    constructor (keyOf: Option<E -> string>, obs: DropObserver?)
      ensures View() == NewHub(keyOf) && dropObserver == obs
    {
      this.keyOf, dropObserver := keyOf, obs;
      subs, nextID, retained, gone := map[], 0, map[], map[];
    }

    method Retain(key: string)
      modifies this
      ensures View() == HubSpec.Retain(old(View()), key)
    {
      if key == "" || keyOf.None? {
        return;
      }
      if key !in retained {
        retained := retained[key := []];
      }
    }

    method Release(key: string)
      modifies this
      ensures View() == HubSpec.Release(old(View()), key)
    {
      retained := retained - {key};
    }

    /** The replay loop sends into the new channel while the lock is held: each send finds room. */
    method Subscribe(filter: string) returns (id: int)
      modifies this
      ensures View() == HubSpec.Subscribe(old(View()), filter) && id == nextID
    {
      var held := if filter in retained then retained[filter] else [];
      var ch := Sub(filter, SUB_BUF_SIZE + |held|, []);
      for i := 0 to |held|
        invariant ch == Sub(filter, SUB_BUF_SIZE + |held|, held[..i])
      {
        assert !Full(ch);
        ch := ch.(buf := ch.buf + [held[i]]);
      }
      assert held[..|held|] == held;
      if filter in retained {
        retained := retained[filter := []];
      }
      nextID := nextID + 1;
      id := nextID;
      subs := subs[id := ch];
    }

    method Holds(filter: string) returns (held: bool)
      ensures held == HubSpec.Holds(View(), filter)
    {
      var todo := subs.Keys;
      while todo != {}
        invariant todo <= subs.Keys
        invariant forall id :: id in subs && id !in todo ==> subs[id].filter != filter
        decreases todo
      {
        var id := AnyOf(todo);
        if subs[id].filter == filter {
          return true;
        }
        todo := todo - {id};
      }
      return false;
    }

    method ObserveDrop()
      modifies dropObserver
      ensures Notified(old(Drops()), Drops(), 1)
    {
      if dropObserver != null {
        dropObserver.ObserveDrop();
      }
    }

    /** Drains the channel and puts its entries ahead of backlog, keeping the newest SUB_BUF_SIZE. */
    method Requeue(ch: Sub<E>, backlog: seq<E>) returns (drained: Sub<E>, merged: seq<E>)
      modifies dropObserver
      ensures drained == ch.(buf := []) && merged == Newest(ch.buf + backlog)
      ensures Notified(old(Drops()), Drops(), |Oldest(ch.buf + backlog)|)
    {
      var unread: seq<E> := [];
      drained := ch;
      while drained.buf != []
        invariant drained == ch.(buf := drained.buf) && unread + drained.buf == ch.buf
        invariant Drops() == old(Drops())
        decreases |drained.buf|
      {
        unread := unread + [drained.buf[0]];
        drained := drained.(buf := drained.buf[1..]);
      }
      assert unread == ch.buf;
      merged := Trim(unread + backlog);
    }

    /** Drops the oldest entries beyond SUB_BUF_SIZE, one notification each. */
    method Trim(all: seq<E>) returns (merged: seq<E>)
      modifies dropObserver
      ensures merged == Newest(all) && Notified(old(Drops()), Drops(), |Oldest(all)|)
    {
      merged := all;
      while |merged| > SUB_BUF_SIZE
        invariant |merged| <= |all| && merged == all[|all| - |merged|..]
        invariant |merged| < SUB_BUF_SIZE ==> merged == all
        invariant Notified(old(Drops()), Drops(), |all| - |merged|)
      {
        merged := merged[1..];
        ObserveDrop();
      }
    }

    method Unsubscribe(id: int)
      modifies this, dropObserver
      ensures View() == HubSpec.Unsubscribe(old(View()), id)
      ensures Notified(old(Drops()), Drops(), Observed(old(View()), DoUnsubscribe(id)))
    {
      if id !in subs {
        return;
      }
      var s := subs[id];
      subs := subs - {id};
      var shared := Holds(s.filter);
      if s.filter in retained && !shared {
        var merged;
        s, merged := Requeue(s, retained[s.filter]);
        retained := retained[s.filter := merged];
      }
      gone := gone[id := s];
    }

    method Publish(e: E)
      modifies this, dropObserver
      ensures View() == HubSpec.Publish(old(View()), e)
      ensures Notified(old(Drops()), Drops(), Observed(old(View()), DoPublish(e)))
    {
      var key := "";
      if keyOf.Some? {
        key := keyOf.value(e);
      }
      var attached := FanOut(e, key);
      if attached {
        return;
      }
      if key !in retained {
        return;
      }
      var backlog := retained[key];
      if |backlog| >= SUB_BUF_SIZE {
        backlog := backlog[1..];
        ObserveDrop();
      }
      retained := retained[key := backlog + [e]];
    }

    /** One round of the range: skip, or send without blocking; a full channel drops e. */
    method OfferTo(s: Sub<E>, e: E, key: string) returns (s': Sub<E>, carries: bool, dropped: bool)
      requires key == Key(keyOf, e)
      modifies dropObserver
      ensures s' == Offer(keyOf, s, e) && carries == (key != "" && s.filter == key)
      ensures dropped == (Matches(keyOf, s, key) && Full(s))
      ensures Notified(old(Drops()), Drops(), if dropped then 1 else 0)
    {
      s', carries, dropped := s, false, false;
      if s.filter != "" && keyOf.Some? && s.filter != key {
        return;
      }
      if s.filter != "" && s.filter == key {
        carries := true;
      }
      if |s.buf| < s.cap {
        s' := s.(buf := s.buf + [e]);
      } else {
        dropped := true;
        ObserveDrop();
      }
    }

    /** The range over the subscribers in Publish, in any order, with its non-blocking sends. */
    method FanOut(e: E, key: string) returns (attached: bool)
      requires key == Key(keyOf, e)
      modifies this`subs, dropObserver
      ensures subs == HubSpec.Publish(old(View()), e).subs && attached == Attached(old(View()), key)
      ensures Notified(old(Drops()), Drops(), |Refused(old(View()), e)|)
    {
      ghost var h := View();
      var todo := subs.Keys;
      ghost var refused: set<int> := {};
      attached := false;
      while todo != {}
        invariant todo <= subs.Keys == h.subs.Keys
        invariant forall id :: id in subs ==> subs[id] == if id in todo then h.subs[id] else Offer(h.keyOf, h.subs[id], e)
        invariant attached ==> Attached(h, key)
        invariant forall id :: id in h.subs && id !in todo && key != "" && h.subs[id].filter == key ==> attached
        invariant forall id :: id in refused <==> id in Refused(h, e) && id !in todo
        invariant Notified(old(Drops()), Drops(), |refused|)
        decreases todo
      {
        var id := AnyOf(todo);
        todo := todo - {id};
        var s, carries, dropped := OfferTo(subs[id], e, key);
        subs := subs[id := s];
        attached := attached || carries;
        refused := if dropped then refused + {id} else refused;
      }
      EveryoneOffered(h, e, subs, refused);
    }

    static lemma EveryoneOffered(h: Hub<E>, e: E, subs: map<int, Sub<E>>, refused: set<int>)
      requires subs.Keys == h.subs.Keys
      requires forall id :: id in subs ==> subs[id] == Offer(h.keyOf, h.subs[id], e)
      requires forall id :: id in refused <==> id in Refused(h, e)
      ensures subs == HubSpec.Publish(h, e).subs && refused == Refused(h, e)
    {
      forall id: int ensures id in refused <==> id in Refused(h, e) {}
      forall id: int | id in subs ensures subs[id] == HubSpec.Publish(h, e).subs[id] {}
    }

    /** The reader's receive, on a registered subscriber's channel or on a closed one. */
    method Receive(id: int) returns (r: Received<E>)
      modifies this
      ensures View() == AfterReceive(old(View()), id) && r == HubSpec.Receive(old(View()), id)
    {
      if id in subs {
        var s := subs[id];
        if s.buf == [] {
          return Nothing;
        }
        subs := subs[id := s.(buf := s.buf[1..])];
        return Got(s.buf[0]);
      }
      if id in gone && gone[id].buf != [] {
        var s := gone[id];
        gone := gone[id := s.(buf := s.buf[1..])];
        return Got(s.buf[0]);
      }
      return Closed;
    }

    /** Any one step, and what the observer hears of it. */
    method Do(step: Step<E>)
      modifies this, dropObserver
      ensures View() == Next(old(View()), step)
      ensures Notified(old(Drops()), Drops(), Observed(old(View()), step))
    {
      match step
      case DoRetain(key) => Retain(key);
      case DoRelease(key) => Release(key);
      case DoSubscribe(filter) => var _ := Subscribe(filter);
      case DoUnsubscribe(id) => Unsubscribe(id);
      case DoPublish(e) => Publish(e);
      case DoReceive(id) => var _ := Receive(id);
    }
  }
}
