/**
 Unsubscribe one channel operation at a time, with receives between those of its drain. No entry
 is lost or taken twice whatever readers do, but order is kept, and the call is atomic, only as
 long as no reader takes an entry after the drain has taken an older one. The handler that
 unsubscribes is its channel's only reader, so this never happens to it.
 */
module HubDrain {
  import opened HubSpec
  import opened HubInvariants
  import opened HubReceives

  /** One channel operation while a requeue is under way: the drain's, or a receive. */
  datatype Draw = Drain | Read(id: int)

  /** Inside Unsubscribe(id): the hub without the subscriber, its channel, and what the drain has taken. */
  datatype Leaving<!E> = Leaving(hub: Hub<E>, ch: Sub<E>, unread: seq<E>)

  ghost function Begin<E>(h: Hub<E>, id: int): Leaving<E>
    requires id in h.subs
  {
    Leaving(h.(subs := h.subs - {id}), h.subs[id], [])
  }

  ghost function DrawOnce<E>(l: Leaving<E>, id: int, d: Draw): Leaving<E> {
    match d
    case Drain => if l.ch.buf == [] then l else l.(ch := l.ch.(buf := l.ch.buf[1..]), unread := l.unread + [l.ch.buf[0]])
    case Read(x) =>
      if x != id then l.(hub := AfterReceive(l.hub, x))
      else if l.ch.buf == [] then l else l.(ch := l.ch.(buf := l.ch.buf[1..]))
  }

  ghost function DrawAll<E>(l: Leaving<E>, id: int, ds: seq<Draw>): Leaving<E>
    decreases |ds|
  {
    if ds == [] then l else DrawAll(DrawOnce(l, id, ds[0]), id, ds[1..])
  }

  ghost function TakenByDraw<E>(l: Leaving<E>, id: int, d: Draw, x: int): seq<E> {
    if d != Read(x) then []
    else if x != id then Taken(l.hub, x)
    else if l.ch.buf == [] then [] else [l.ch.buf[0]]
  }

  /** What a reader of channel x takes from it meanwhile. */
  ghost function DrawnBy<E>(l: Leaving<E>, id: int, ds: seq<Draw>, x: int): seq<E>
    decreases |ds|
  {
    if ds == [] then []
    else TakenByDraw(l, id, ds[0], x) + DrawnBy(DrawOnce(l, id, ds[0]), id, ds[1..], x)
  }

  /** The drain takes what is left, and the backlog and the closed channel are put in place. */
  ghost function End<E>(l: Leaving<E>, id: int): Hub<E> {
    l.hub.(retained := l.hub.retained[l.ch.filter := Newest(l.unread + l.ch.buf + Held(l.hub, l.ch.filter))],
           gone := l.hub.gone[id := l.ch.(buf := [])])
  }

  /** A reader of the leaving channel takes an entry although the drain already holds an older one. */
  ghost predicate Overtakes<E>(l: Leaving<E>, id: int, ds: seq<Draw>)
    decreases |ds|
  {
    ds != [] &&
      ((ds[0] == Read(id) && l.unread != [] && l.ch.buf != []) || Overtakes(DrawOnce(l, id, ds[0]), id, ds[1..]))
  }

  ghost predicate Distinct<E>(s: seq<E>) {
    forall i, j :: 0 <= i < j < |s| ==> s[i] != s[j]
  }

  /** What was read, then what the drain has, then what is left. */
  ghost function Drawn<E>(l: Leaving<E>, id: int, ds: seq<Draw>): seq<E> {
    var l' := DrawAll(l, id, ds);
    DrawnBy(l, id, ds, id) + (l'.unread + l'.ch.buf)
  }

  lemma {:induction false} DrawnIff<E>(l: Leaving<E>, id: int, ds: seq<Draw>)
    ensures InOrderIff(Drawn(l, id, ds), l.unread + l.ch.buf, Overtakes(l, id, ds))
    decreases |ds|
  {
    if ds != [] {
      var l1 := DrawOnce(l, id, ds[0]);
      DrawnIff(l1, id, ds[1..]);
      DrawnFirst(l, id, ds);
      LeftAfter(l, id, ds[0]);
      if ds[0] == Read(id) && l.ch.buf != [] {
        TakeOne(l.unread, l.ch.buf, Drawn(l1, id, ds[1..]), Overtakes(l1, id, ds[1..]));
      }
    } else {
      assert [] + (l.unread + l.ch.buf) == l.unread + l.ch.buf;
    }
  }

  /** Nothing lost or taken twice, in order without overtaking, and out of order with it. */
  ghost predicate InOrderIff<E>(drawn: seq<E>, all: seq<E>, overtaken: bool) {
    && multiset(drawn) == multiset(all)
    && (!overtaken ==> drawn == all)
    && (Distinct(all) && overtaken ==> drawn != all)
  }

  lemma LeftAfter<E>(l: Leaving<E>, id: int, d: Draw)
    ensures var l1 := DrawOnce(l, id, d);
      if d == Read(id) && l.ch.buf != [] then l1.unread == l.unread && l1.ch.buf == l.ch.buf[1..]
      else l1.unread + l1.ch.buf == l.unread + l.ch.buf
  {
  }

  lemma DrawnFirst<E>(l: Leaving<E>, id: int, ds: seq<Draw>)
    requires ds != []
    ensures Drawn(l, id, ds) ==
      (if ds[0] == Read(id) && l.ch.buf != [] then [l.ch.buf[0]] else []) + Drawn(DrawOnce(l, id, ds[0]), id, ds[1..])
    ensures !(ds[0] == Read(id) && l.ch.buf != []) ==> Drawn(l, id, ds) == Drawn(DrawOnce(l, id, ds[0]), id, ds[1..])
  {
    var first := if ds[0] == Read(id) && l.ch.buf != [] then [l.ch.buf[0]] else [];
    var l' := DrawAll(l, id, ds);
    Regrouped(first, DrawnBy(DrawOnce(l, id, ds[0]), id, ds[1..], id), l'.unread + l'.ch.buf);
  }

  lemma Regrouped<E>(a: seq<E>, b: seq<E>, c: seq<E>)
    ensures (a + b) + c == a + (b + c)
    ensures a == [] ==> a + (b + c) == b + c
  {
  }

  /** Taking b's first entry ahead of what is left: in order only if a is empty. */
  lemma TakeOne<E>(a: seq<E>, b: seq<E>, rest: seq<E>, overtaken: bool)
    requires b != [] && InOrderIff(rest, a + b[1..], overtaken)
    ensures InOrderIff([b[0]] + rest, a + b, overtaken || a != [])
  {
    var ab := a + b;
    TakeMultiset(a, b, rest);
    if Distinct(ab) {
      TakeDistinct(a, b);
    }
    assert ([b[0]] + rest)[1..] == rest && ([b[0]] + rest)[0] == b[0];
    assert ab[|a|] == b[0] && (a == [] ==> ab[1..] == a + b[1..] && ab == [b[0]] + ab[1..]);
  }

  lemma TakeMultiset<E>(a: seq<E>, b: seq<E>, rest: seq<E>)
    requires b != [] && multiset(rest) == multiset(a + b[1..])
    ensures multiset([b[0]] + rest) == multiset(a + b)
  {
    assert b == [b[0]] + b[1..];
  }

  lemma TakeDistinct<E>(a: seq<E>, b: seq<E>)
    requires b != [] && Distinct(a + b)
    ensures Distinct(a + b[1..])
  {
    var ab, short := a + b, a + b[1..];
    forall i, j | 0 <= i < j < |short| ensures short[i] != short[j] {
      assert short[i] == ab[if i < |a| then i else i + 1] && short[j] == ab[if j < |a| then j else j + 1];
    }
  }

  /**
   No entry is lost or taken twice while Unsubscribe drains, whatever readers do; and what was
   read, then what goes back, is in order exactly when no reader overtakes the drain.
   */
  lemma DrainInOrderIff<E>(h: Hub<E>, id: int, ds: seq<Draw>)
    requires id in h.subs && Distinct(h.subs[id].buf)
    ensures Drawn(Begin(h, id), id, ds) == h.subs[id].buf <==> !Overtakes(Begin(h, id), id, ds)
    ensures multiset(Drawn(Begin(h, id), id, ds)) == multiset(h.subs[id].buf)
  {
    assert [] + h.subs[id].buf == h.subs[id].buf;
    DrawnIff(Begin(h, id), id, ds);
  }

  /** Such a run: the drain holds e1 when a reader takes e2, which is then read before e1 ever is. */
  lemma OvertakingReorders<E>(h: Hub<E>, id: int, e1: E, e2: E)
    requires id in h.subs && h.subs[id].buf == [e1, e2]
    ensures var l, ds := Begin(h, id), [Drain, Read(id)];
      DrawnBy(l, id, ds, id) == [e2] && DrawAll(l, id, ds).unread == [e1] && Overtakes(l, id, ds)
  {
    var l, ds := Begin(h, id), [Drain, Read(id)];
    var l1 := DrawOnce(l, id, Drain);
    var l2 := DrawOnce(l1, id, Read(id));
    assert l1.unread == [e1] && l1.ch.buf == [e2];
    assert ds[1..] == [Read(id)] && ds[1..][1..] == [];
    assert DrawAll(l1, id, ds[1..]) == DrawAll(l2, id, []) == l2;
    assert DrawnBy(l1, id, ds[1..], id) == [e2] + DrawnBy(l2, id, [], id);
    assert Overtakes(l1, id, ds[1..]);
  }

  /** The reader that unsubscribes is the only one of its channel, as in the handler: it overtakes nothing. */
  lemma {:induction false} OwnReaderNeverOvertakes<E>(l: Leaving<E>, id: int, ds: seq<Draw>)
    requires Read(id) !in ds
    ensures !Overtakes(l, id, ds)
    decreases |ds|
  {
    if ds != [] {
      OwnReaderNeverOvertakes(DrawOnce(l, id, ds[0]), id, ds[1..]);
    }
  }

  ghost function EarlyRead<E>(l: Leaving<E>, id: int, d: Draw): seq<Step<E>> {
    if d.Read? && (d.id != id || l.unread == []) then [DoReceive(d.id)] else []
  }

  /** The receives as steps before the atomic call; one that waits on the drained channel is none. */
  ghost function EarlyReads<E>(l: Leaving<E>, id: int, ds: seq<Draw>): seq<Step<E>>
    decreases |ds|
  {
    if ds == [] then []
    else EarlyRead(l, id, ds[0]) + EarlyReads(DrawOnce(l, id, ds[0]), id, ds[1..])
  }

  /** The hub as if the drain had taken nothing yet. */
  ghost predicate AsIf<E>(l: Leaving<E>, id: int, g: Hub<E>) {
    && id !in l.hub.subs && id !in l.hub.gone
    && g == l.hub.(subs := l.hub.subs[id := l.ch.(buf := l.unread + l.ch.buf)])
  }

  lemma DrawAsIf<E>(l: Leaving<E>, id: int, d: Draw, g: Hub<E>)
    requires AsIf(l, id, g) && !(d == Read(id) && l.unread != [] && l.ch.buf != [])
    ensures
      var receives := d.Read? && (d.id != id || l.unread == []);
      AsIf(DrawOnce(l, id, d), id, if receives then AfterReceive(g, d.id) else g)
    ensures d.Read? ==> TakenByDraw(l, id, d, d.id) == if d.id != id || l.unread == [] then Taken(g, d.id) else []
  {
    if d == Drain {
      var l' := DrawOnce(l, id, d);
      assert l'.unread + l'.ch.buf == l.unread + l.ch.buf;
    } else if d.id == id {
      if l.unread == [] {
        assert l.unread + l.ch.buf == l.ch.buf;
        assert [] + l.ch.buf[if l.ch.buf == [] then 0 else 1..] == l.ch.buf[if l.ch.buf == [] then 0 else 1..];
      }
    } else {
      OtherReceive(l, id, d.id, g);
    }
  }

  lemma OtherReceive<E>(l: Leaving<E>, id: int, x: int, g: Hub<E>)
    requires AsIf(l, id, g) && x != id
    ensures AsIf(l.(hub := AfterReceive(l.hub, x)), id, AfterReceive(g, x)) && Taken(g, x) == Taken(l.hub, x)
  {
    var l', g' := l.(hub := AfterReceive(l.hub, x)), AfterReceive(g, x);
    assert g'.subs == l'.hub.subs[id := g.subs[id]];
  }

  lemma {:induction false} DrawAllAsIf<E>(l: Leaving<E>, id: int, ds: seq<Draw>, g: Hub<E>, x: int)
    requires AsIf(l, id, g) && !Overtakes(l, id, ds)
    ensures AsIf(DrawAll(l, id, ds), id, Exec(g, EarlyReads(l, id, ds)))
    ensures DrawnBy(l, id, ds, x) == TakenIn(g, EarlyReads(l, id, ds), x)
    decreases |ds|
  {
    if ds != [] {
      var first := EarlyRead(l, id, ds[0]);
      DrawAsIf(l, id, ds[0], g);
      DrawAllAsIf(DrawOnce(l, id, ds[0]), id, ds[1..], if first == [] then g else AfterReceive(g, ds[0].id), x);
      FirstReads(g, first, EarlyReads(DrawOnce(l, id, ds[0]), id, ds[1..]), x);
    }
  }

  lemma FirstReads<E>(g: Hub<E>, first: seq<Step<E>>, rest: seq<Step<E>>, x: int)
    requires |first| <= 1 && (first != [] ==> first[0].DoReceive?)
    ensures first == [] ==> first + rest == rest
    ensures first != [] ==> Exec(g, first + rest) == Exec(AfterReceive(g, first[0].id), rest)
    ensures first != [] ==>
      TakenIn(g, first + rest, x)
        == (if first[0].id == x then Taken(g, x) else []) + TakenIn(AfterReceive(g, first[0].id), rest, x)
  {
    if first != [] {
      assert (first + rest)[0] == first[0] && (first + rest)[1..] == rest;
    }
  }

  lemma {:induction false} EarlyReadsAreReceives<E>(l: Leaving<E>, id: int, ds: seq<Draw>)
    ensures forall i :: 0 <= i < |EarlyReads(l, id, ds)| ==> EarlyReads(l, id, ds)[i].DoReceive?
    decreases |ds|
  {
    if ds != [] {
      EarlyReadsAreReceives(DrawOnce(l, id, ds[0]), id, ds[1..]);
    }
  }

  lemma EndIsUnsubscribe<E>(l: Leaving<E>, id: int, g: Hub<E>)
    requires AsIf(l, id, g) && Requeues(g, id)
    ensures End(l, id) == Unsubscribe(g, id)
  {
    assert g.subs - {id} == l.hub.subs;
  }

  lemma OneLeave<E>(h: Hub<E>, id: int, x: int)
    ensures Exec(h, [DoUnsubscribe(id)]) == Unsubscribe(h, id) && TakenIn(h, [DoUnsubscribe(id)], x) == []
  {
  }

  lemma StillRequeues<E>(h: Hub<E>, g: Hub<E>, id: int)
    requires SameShape(h, g) && id in h.subs && Requeues(h, id)
    ensures Requeues(g, id)
  {
    var f := h.subs[id].filter;
    forall other | other in g.subs - {id} ensures g.subs[other].filter != f {
      assert other in h.subs - {id};
    }
  }

  /**
   An Unsubscribe that requeues, with receives between the operations of its drain, ends in the
   hub, and hands each reader the entries, of those receives followed by one atomic
   Unsubscribe, as long as no reader of the leaving channel overtakes the drain.
   */
  lemma UnsubscribeIsAtomic<E>(h: Hub<E>, id: int, ds: seq<Draw>, x: int)
    requires Inv(h) && id in h.subs && Requeues(h, id) && !Overtakes(Begin(h, id), id, ds)
    ensures
      var l, steps := Begin(h, id), EarlyReads(Begin(h, id), id, ds);
      && End(DrawAll(l, id, ds), id) == Exec(h, steps + [DoUnsubscribe(id)])
      && DrawnBy(l, id, ds, x) == TakenIn(h, steps + [DoUnsubscribe(id)], x)
  {
    var l, steps := Begin(h, id), EarlyReads(Begin(h, id), id, ds);
    assert [] + h.subs[id].buf == h.subs[id].buf;
    assert h.subs == (h.subs - {id})[id := h.subs[id]];
    DrawAllAsIf(l, id, ds, h, x);
    var g := Exec(h, steps);
    EarlyReadsAreReceives(l, id, ds);
    ReceivesKeepShape(h, steps);
    StillRequeues(h, g, id);
    ExecAppend(h, steps, [DoUnsubscribe(id)]);
    TakenAppend(h, steps, [DoUnsubscribe(id)], x);
    OneLeave(g, id, x);
    EndIsUnsubscribe(DrawAll(l, id, ds), id, g);
  }
}
