/**
 Publish one channel operation at a time. A receive takes no lock, so receives can fall between
 the sends of one Publish, which meets the subscribers in any order. It is atomic all the same.
 */
module HubPublish {
  import opened HubSpec
  import opened HubInvariants
  import opened HubReceives

  /** One channel operation while Publish is under way: its non-blocking send to a subscriber, or a receive. */
  datatype Touch = Send(id: int) | Take(id: int)

  ghost function TouchOnce<E>(h: Hub<E>, e: E, t: Touch): Hub<E> {
    match t
    case Send(id) => if id in h.subs then h.(subs := h.subs[id := Offer(h.keyOf, h.subs[id], e)]) else h
    case Take(id) => AfterReceive(h, id)
  }

  ghost function TouchAll<E>(h: Hub<E>, e: E, ts: seq<Touch>): Hub<E>
    decreases |ts|
  {
    if ts == [] then h else TouchAll(TouchOnce(h, e, ts[0]), e, ts[1..])
  }

  /** The entries received from channel x meanwhile. */
  ghost function TakenFrom<E>(h: Hub<E>, e: E, ts: seq<Touch>, x: int): seq<E>
    decreases |ts|
  {
    if ts == [] then []
    else (if ts[0] == Take(x) then Taken(h, x) else []) + TakenFrom(TouchOnce(h, e, ts[0]), e, ts[1..], x)
  }

  /** Channel x refuses e because it is full when its send comes. */
  ghost predicate Refuses<E>(h: Hub<E>, e: E, ts: seq<Touch>, x: int)
    decreases |ts|
  {
    ts != [] && ((ts[0] == Send(x) && x in Refused(h, e)) || Refuses(TouchOnce(h, e, ts[0]), e, ts[1..], x))
  }

  /** The range of Publish meets every subscriber once, in some order. */
  ghost predicate SendsToAll<E>(h: Hub<E>, ts: seq<Touch>) {
    SendsOnce(ts) && forall id :: Send(id) in ts <==> id in h.subs
  }

  ghost predicate SendsOnce(ts: seq<Touch>) {
    forall i, j :: 0 <= i < j < |ts| && ts[i].Send? ==> ts[i] != ts[j]
  }

  /** The whole call: the sends, with receives in between, and then the backlog. */
  ghost function PublishTouching<E>(h: Hub<E>, e: E, ts: seq<Touch>): Hub<E> {
    TouchAll(h, e, ts).(retained := Publish(h, e).retained)
  }

  /** Receives on channels that e has yet to reach, the sends, and all other receives. */
  function Early(ts: seq<Touch>): seq<Touch> {
    if ts == [] then []
    else (if ts[0].Take? && Send(ts[0].id) in ts[1..] then [ts[0]] else []) + Early(ts[1..])
  }

  function Sends(ts: seq<Touch>): seq<Touch> {
    if ts == [] then [] else (if ts[0].Send? then [ts[0]] else []) + Sends(ts[1..])
  }

  function Late(ts: seq<Touch>): seq<Touch> {
    if ts == [] then []
    else (if ts[0].Take? && Send(ts[0].id) !in ts[1..] then [ts[0]] else []) + Late(ts[1..])
  }

  predicate OnlyTakes(ts: seq<Touch>) { forall i :: 0 <= i < |ts| ==> ts[i].Take? }

  function Receives<E>(ts: seq<Touch>): seq<Step<E>>
    requires OnlyTakes(ts)
  {
    if ts == [] then [] else [DoReceive(ts[0].id)] + Receives(ts[1..])
  }

  lemma {:induction false} PartsAreTakes(ts: seq<Touch>)
    ensures OnlyTakes(Early(ts)) && OnlyTakes(Late(ts))
  {
    if ts != [] {
      PartsAreTakes(ts[1..]);
    }
  }

  // A channel's fate depends only on the operations on that channel.

  function Proj(ts: seq<Touch>, x: int): seq<Touch> {
    if ts == [] then [] else (if ts[0].id == x then [ts[0]] else []) + Proj(ts[1..], x)
  }

  lemma {:induction false} ProjAppend(a: seq<Touch>, b: seq<Touch>, x: int)
    ensures Proj(a + b, x) == Proj(a, x) + Proj(b, x)
  {
    if a == [] {
      assert a + b == b;
    } else {
      assert (a + b)[0] == a[0] && (a + b)[1..] == a[1..] + b;
      ProjAppend(a[1..], b, x);
    }
  }

  /** The two hubs have the same channel x. */
  ghost predicate Agree<E>(h: Hub<E>, g: Hub<E>, x: int) {
    && h.keyOf == g.keyOf
    && (x in h.subs <==> x in g.subs) && (x in h.subs ==> h.subs[x] == g.subs[x])
    && (x in h.gone <==> x in g.gone) && (x in h.gone ==> h.gone[x] == g.gone[x])
  }

  lemma TouchLocal<E>(h: Hub<E>, g: Hub<E>, e: E, t: Touch, x: int)
    requires Agree(h, g, x)
    ensures t.id == x ==> Agree(TouchOnce(h, e, t), TouchOnce(g, e, t), x)
    ensures t.id != x ==> Agree(TouchOnce(h, e, t), g, x)
    ensures Taken(h, x) == Taken(g, x) && (x in Refused(h, e) <==> x in Refused(g, e))
  {
  }

  lemma {:induction false} TouchAllLocal<E>(h: Hub<E>, g: Hub<E>, e: E, ts: seq<Touch>, x: int)
    requires Agree(h, g, x)
    ensures Agree(TouchAll(h, e, ts), TouchAll(g, e, Proj(ts, x)), x)
    ensures TakenFrom(h, e, ts, x) == TakenFrom(g, e, Proj(ts, x), x)
    ensures Refuses(h, e, ts, x) <==> Refuses(g, e, Proj(ts, x), x)
    decreases |ts|
  {
    if ts != [] {
      TouchLocal(h, g, e, ts[0], x);
      if ts[0].id == x {
        assert Proj(ts, x)[0] == ts[0] && Proj(ts, x)[1..] == Proj(ts[1..], x);
        TouchAllLocal(TouchOnce(h, e, ts[0]), TouchOnce(g, e, ts[0]), e, ts[1..], x);
      } else {
        assert Proj(ts, x) == Proj(ts[1..], x);
        TouchAllLocal(TouchOnce(h, e, ts[0]), g, e, ts[1..], x);
      }
    }
  }

  /** Reordering that keeps each channel's own operations in order changes nothing on any channel. */
  lemma SameOnChannel<E>(h: Hub<E>, e: E, ts: seq<Touch>, us: seq<Touch>, x: int)
    requires Proj(ts, x) == Proj(us, x)
    ensures Agree(TouchAll(h, e, ts), TouchAll(h, e, us), x)
    ensures TakenFrom(h, e, ts, x) == TakenFrom(h, e, us, x)
    ensures Refuses(h, e, ts, x) <==> Refuses(h, e, us, x)
  {
    TouchAllLocal(h, h, e, ts, x);
    TouchAllLocal(h, h, e, us, x);
  }

  lemma {:induction false} NoSendLeft(ts: seq<Touch>, x: int)
    requires Send(x) !in ts
    ensures Proj(Early(ts), x) == [] && Proj(Sends(ts), x) == []
  {
    if ts != [] {
      NoSendLeft(ts[1..], x);
      EarlyFirst(ts, x);
    }
  }

  /** How the first operation enters the three parts, seen from channel x. */
  lemma EarlyFirst(ts: seq<Touch>, x: int)
    requires ts != []
    ensures Proj(Early(ts), x) == (if ts[0] == Take(x) && Send(x) in ts[1..] then [ts[0]] else []) + Proj(Early(ts[1..]), x)
    ensures Proj(Sends(ts), x) == (if ts[0] == Send(x) then [ts[0]] else []) + Proj(Sends(ts[1..]), x)
    ensures Proj(Late(ts), x) == (if ts[0] == Take(x) && Send(x) !in ts[1..] then [ts[0]] else []) + Proj(Late(ts[1..]), x)
  {
    ProjFirst(ts[0], ts[0].Take? && Send(ts[0].id) in ts[1..], Early(ts[1..]), x);
    ProjFirst(ts[0], ts[0].Send?, Sends(ts[1..]), x);
    ProjFirst(ts[0], ts[0].Take? && Send(ts[0].id) !in ts[1..], Late(ts[1..]), x);
  }

  lemma ProjFirst(t: Touch, keep: bool, rest: seq<Touch>, x: int)
    ensures Proj((if keep then [t] else []) + rest, x) == (if keep && t.id == x then [t] else []) + Proj(rest, x)
  {
    if keep {
      assert ([t] + rest)[1..] == rest;
    } else {
      assert [] + rest == rest;
    }
  }

  lemma {:induction false} PartsInOrder(ts: seq<Touch>, x: int)
    requires SendsOnce(ts)
    ensures Proj(Early(ts), x) + Proj(Sends(ts), x) + Proj(Late(ts), x) == Proj(ts, x)
  {
    if ts != [] {
      PartsInOrder(ts[1..], x);
      EarlyFirst(ts, x);
      if Send(x) !in ts[1..] {
        NoSendLeft(ts[1..], x);
      }
      InFront(ts[0], Proj(Early(ts[1..]), x), Proj(Sends(ts[1..]), x), Proj(Late(ts[1..]), x));
    }
  }

  lemma InFront(t: Touch, a: seq<Touch>, b: seq<Touch>, c: seq<Touch>)
    ensures ([t] + a) + b + c == [t] + (a + b + c)
    ensures a == [] ==> a + ([t] + b) + c == [t] + (a + b + c)
    ensures a == [] && b == [] ==> a + b + ([t] + c) == [t] + (a + b + c)
    ensures forall s: seq<Touch> :: [] + s == s
  {
    assert forall s: seq<Touch> :: [] + s == s;
  }

  lemma {:induction false} TouchAppend<E>(h: Hub<E>, e: E, a: seq<Touch>, b: seq<Touch>)
    ensures TouchAll(h, e, a + b) == TouchAll(TouchAll(h, e, a), e, b)
    ensures forall x :: TakenFrom(h, e, a + b, x) == TakenFrom(h, e, a, x) + TakenFrom(TouchAll(h, e, a), e, b, x)
    ensures forall x :: Refuses(h, e, a + b, x) <==> Refuses(h, e, a, x) || Refuses(TouchAll(h, e, a), e, b, x)
    decreases |a|
  {
    if a == [] {
      assert a + b == b;
    } else {
      assert (a + b)[0] == a[0] && (a + b)[1..] == a[1..] + b;
      TouchAppend(TouchOnce(h, e, a[0]), e, a[1..], b);
    }
  }

  /** Receives alone are steps of a run, and leave filters, backlogs and ids alone. */
  lemma {:induction false} TakesAreSteps<E>(h: Hub<E>, e: E, ts: seq<Touch>, x: int)
    requires OnlyTakes(ts)
    ensures TouchAll(h, e, ts) == Exec(h, Receives(ts)) && SameShape(h, TouchAll(h, e, ts))
    ensures TakenFrom(h, e, ts, x) == TakenIn(h, Receives(ts), x) && !Refuses(h, e, ts, x)
    decreases |ts|
  {
    if ts != [] {
      TakesAreSteps(AfterReceive(h, ts[0].id), e, ts[1..], x);
    }
  }

  lemma SameShapeHolds<E>(h: Hub<E>, g: Hub<E>, e: E)
    requires SameShape(h, g)
    ensures forall f :: Holds(h, f) <==> Holds(g, f)
    ensures Publish(h, e).retained == Publish(g, e).retained
  {
  }

  lemma {:induction false} TouchKeepsShape<E>(h: Hub<E>, e: E, ts: seq<Touch>)
    ensures SameShape(h, TouchAll(h, e, ts)) && TouchAll(h, e, ts).gone.Keys == h.gone.Keys
    decreases |ts|
  {
    if ts != [] {
      TouchKeepsShape(TouchOnce(h, e, ts[0]), e, ts[1..]);
    }
  }

  lemma {:induction false} ProjOfSends(ts: seq<Touch>, x: int)
    requires SendsOnce(ts)
    ensures Proj(Sends(ts), x) == if Send(x) in ts then [Send(x)] else []
  {
    if ts != [] {
      ProjOfSends(ts[1..], x);
      EarlyFirst(ts, x);
    }
  }

  /** The sends alone, in any order, are the fan-out of one atomic Publish. */
  lemma SendsArePublish<E>(h: Hub<E>, e: E, ts: seq<Touch>, x: int)
    requires SendsToAll(h, ts)
    ensures Agree(TouchAll(h, e, Sends(ts)), Publish(h, e), x)
    ensures TakenFrom(h, e, Sends(ts), x) == [] && (Refuses(h, e, Sends(ts), x) <==> x in Refused(h, e))
  {
    ProjOfSends(ts, x);
    ProjTwice(Sends(ts), x);
    SameOnChannel(h, e, Sends(ts), if x in h.subs then [Send(x)] else [], x);
    OneSend(h, e, x);
  }

  lemma {:induction false} ProjTwice(ts: seq<Touch>, x: int)
    ensures Proj(Proj(ts, x), x) == Proj(ts, x)
  {
    if ts != [] {
      ProjTwice(ts[1..], x);
      ProjFirst(ts[0], ts[0].id == x, Proj(ts[1..], x), x);
    }
  }

  lemma OneSend<E>(h: Hub<E>, e: E, x: int)
    ensures x in h.subs ==> Agree(TouchAll(h, e, [Send(x)]), Publish(h, e), x)
    ensures TakenFrom(h, e, [Send(x)], x) == [] && (Refuses(h, e, [Send(x)], x) <==> x in Refused(h, e))
    ensures x !in h.subs ==> Agree(TouchAll(h, e, []), Publish(h, e), x)
  {
    assert [Send(x)][0] == Send(x) && [Send(x)][1..] == [];
  }

  lemma SameChannels<E>(h: Hub<E>, g: Hub<E>)
    requires SameShape(h, g) && h.gone.Keys == g.gone.Keys && forall x :: Agree(h, g, x)
    ensures h == g
  {
    forall x: int | x in h.subs ensures h.subs[x] == g.subs[x] {
      assert Agree(h, g, x);
    }
    forall x: int | x in h.gone ensures h.gone[x] == g.gone[x] {
      assert Agree(h, g, x);
    }
    assert h.subs == g.subs && h.gone == g.gone;
  }

  ghost function Around<E>(ts: seq<Touch>, e: E): seq<Step<E>> {
    PartsAreTakes(ts);
    Receives(Early(ts)) + [DoPublish(e)] + Receives(Late(ts))
  }

  /** The three parts in a row, as steps of a run around one atomic Publish. */
  lemma PartsAreSteps<E>(h: Hub<E>, e: E, ts: seq<Touch>, x: int)
    requires SendsToAll(h, ts)
    ensures
      var parts := Early(ts) + Sends(ts) + Late(ts);
      && Agree(TouchAll(h, e, parts), Exec(h, Around(ts, e)), x)
      && TakenFrom(h, e, parts, x) == TakenIn(h, Around(ts, e), x)
      && (Refuses(h, e, parts, x) <==> x in Refused(TouchAll(h, e, Early(ts)), e))
  {
    PartsAreTakes(ts);
    var before := TouchAll(h, e, Early(ts));
    TakesAreSteps(h, e, Early(ts), x);
    SendsArePublish(before, e, ts, x);
    LateSteps(TouchAll(before, e, Sends(ts)), Publish(before, e), e, Late(ts), x);
    TouchAppend(h, e, Early(ts) + Sends(ts), Late(ts));
    TouchAppend(h, e, Early(ts), Sends(ts));
    AroundParts(h, e, Receives(Early(ts)), Receives(Late(ts)), x);
  }

  lemma LateSteps<E>(h: Hub<E>, g: Hub<E>, e: E, ts: seq<Touch>, x: int)
    requires Agree(h, g, x) && OnlyTakes(ts)
    ensures Agree(TouchAll(h, e, ts), Exec(g, Receives(ts)), x)
    ensures TakenFrom(h, e, ts, x) == TakenIn(g, Receives(ts), x) && !Refuses(h, e, ts, x)
  {
    TouchAllLocal(h, g, e, ts, x);
    TouchAllLocal(g, g, e, ts, x);
    TakesAreSteps(g, e, ts, x);
    TakesAreSteps(h, e, ts, x);
  }

  lemma AroundParts<E>(h: Hub<E>, e: E, a: seq<Step<E>>, b: seq<Step<E>>, x: int)
    ensures
      var before := Exec(h, a);
      && Exec(h, a + [DoPublish(e)] + b) == Exec(Publish(before, e), b)
      && TakenIn(h, a + [DoPublish(e)] + b, x) == TakenIn(h, a, x) + TakenIn(Publish(before, e), b, x)
  {
    assert a + [DoPublish(e)] + b == a + ([DoPublish(e)] + b);
    ExecAppend(h, a, [DoPublish(e)] + b);
    TakenAppend(h, a, [DoPublish(e)] + b, x);
    PublishThen(Exec(h, a), e, b, x);
  }

  lemma PublishThen<E>(h: Hub<E>, e: E, b: seq<Step<E>>, x: int)
    ensures Exec(h, [DoPublish(e)] + b) == Exec(Publish(h, e), b)
    ensures TakenIn(h, [DoPublish(e)] + b, x) == TakenIn(Publish(h, e), b, x)
  {
    assert ([DoPublish(e)] + b)[0] == DoPublish(e) && ([DoPublish(e)] + b)[1..] == b;
  }

  /**
   A Publish with receives between its sends, in whatever order the range meets the subscribers,
   ends in the hub, hands each reader the entries, and drops the copies of one atomic Publish:
   with the receives its own sends had not yet reached before it and the others after it.
   */
  lemma PublishIsAtomic<E>(h: Hub<E>, e: E, ts: seq<Touch>)
    requires SendsToAll(h, ts)
    ensures PublishTouching(h, e, ts) == Exec(h, Around(ts, e))
    ensures forall x :: TakenFrom(h, e, ts, x) == TakenIn(h, Around(ts, e), x)
    ensures forall x :: Refuses(h, e, ts, x) <==> x in Refused(TouchAll(h, e, Early(ts)), e)
  {
    var parts := Early(ts) + Sends(ts) + Late(ts);
    forall x: int
      ensures Agree(PublishTouching(h, e, ts), Exec(h, Around(ts, e)), x)
      ensures TakenFrom(h, e, ts, x) == TakenIn(h, Around(ts, e), x)
      ensures Refuses(h, e, ts, x) <==> x in Refused(TouchAll(h, e, Early(ts)), e)
    {
      PartsInOrder(ts, x);
      ProjAppend(Early(ts) + Sends(ts), Late(ts), x);
      ProjAppend(Early(ts), Sends(ts), x);
      SameOnChannel(h, e, ts, parts, x);
      PartsAreSteps(h, e, ts, x);
    }
    AroundShape(h, e, ts);
    SameChannels(PublishTouching(h, e, ts), Exec(h, Around(ts, e)));
  }

  lemma AroundShape<E>(h: Hub<E>, e: E, ts: seq<Touch>)
    ensures SameShape(PublishTouching(h, e, ts), Exec(h, Around(ts, e)))
    ensures PublishTouching(h, e, ts).gone.Keys == Exec(h, Around(ts, e)).gone.Keys
  {
    PartsAreTakes(ts);
    var before := TouchAll(h, e, Early(ts));
    TouchKeepsShape(h, e, ts);
    TouchKeepsShape(h, e, Early(ts));
    TouchKeepsShape(Publish(before, e), e, Late(ts));
    TakesAreSteps(h, e, Early(ts), 0);
    TakesAreSteps(Publish(before, e), e, Late(ts), 0);
    AroundParts(h, e, Receives(Early(ts)), Receives(Late(ts)), 0);
    SameShapeHolds(h, before, e);
  }
}
