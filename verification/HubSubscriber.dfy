/**
 What one subscriber gets, whatever its filter and whether or not its key is retained, and for
 how long a key is retained. Which entries a subscriber wants is said here from the filter and
 the published entries alone.
 */
module HubSubscriber {
  import opened Options
  import opened HubSpec
  import opened HubInvariants
  import opened HubFlow
  import opened HubReceives

  /** An empty filter wants everything, and so does any filter of a hub that cannot key entries. */
  ghost predicate Wants<E>(keyOf: Option<E -> string>, filter: string, e: E) {
    filter == "" || keyOf.None? || keyOf.value(e) == filter
  }

  ghost function WantedOf<E>(keyOf: Option<E -> string>, filter: string, step: Step<E>): seq<E> {
    if step.DoPublish? && Wants(keyOf, filter, step.e) then [step.e] else []
  }

  /** The published entries a filter wants, in order. */
  ghost function Wanted<E>(keyOf: Option<E -> string>, filter: string, steps: seq<Step<E>>): seq<E> {
    if steps == [] then [] else WantedOf(keyOf, filter, steps[0]) + Wanted(keyOf, filter, steps[1..])
  }

  /** Of those, the ones published while the subscriber's queue was at capacity. */
  ghost function Missed<E>(h: Hub<E>, id: int, filter: string, steps: seq<Step<E>>): seq<E>
    decreases |steps|
  {
    if steps == [] then []
    else MissedOf(h, id, filter, steps[0]) + Missed(Next(h, steps[0]), id, filter, steps[1..])
  }

  ghost function MissedOf<E>(h: Hub<E>, id: int, filter: string, step: Step<E>): seq<E> {
    if id in h.subs && |h.subs[id].buf| >= h.subs[id].cap then WantedOf(h.keyOf, filter, step) else []
  }

  lemma SubscriberStep<E>(h: Hub<E>, id: int, step: Step<E>)
    requires Inv(h) && id in h.subs && step != DoUnsubscribe(id)
    ensures
      var h', s := Next(h, step), h.subs[id];
      && h'.keyOf == h.keyOf && id in h'.subs && h'.subs[id].filter == s.filter && h'.subs[id].cap == s.cap
      && Moves(s.buf, WantedOf(h.keyOf, s.filter, step), if step == DoReceive(id) then Taken(h, id) else [],
               MissedOf(h, id, s.filter, step), h'.subs[id].buf)
  {
    assert ChannelOk(h, id, h.subs[id]);
    if step.DoPublish? {
      assert Publish(h, step.e).subs[id] == Offer(h.keyOf, h.subs[id], step.e);
    }
  }

  /**
   As long as a subscriber does not leave, what it reads, then what is in its queue, is an in-order
   subsequence of its first queue followed by the published entries its filter wants; what is
   missing is exactly what was published while its queue was at capacity.
   */
  lemma {:induction false} SubscriberConservation<E>(h: Hub<E>, id: int, steps: seq<Step<E>>)
    requires Inv(h) && id in h.subs && DoUnsubscribe(id) !in steps
    ensures
      var h', s := Exec(h, steps), h.subs[id];
      && id in h'.subs && h'.subs[id].filter == s.filter && h'.subs[id].cap == s.cap
      && Subsequence(TakenIn(h, steps, id) + h'.subs[id].buf, s.buf + Wanted(h.keyOf, s.filter, steps))
      && multiset(s.buf + Wanted(h.keyOf, s.filter, steps))
           == multiset(TakenIn(h, steps, id) + h'.subs[id].buf) + multiset(Missed(h, id, s.filter, steps))
    decreases |steps|
  {
    var s := h.subs[id];
    if steps == [] {
      assert s.buf + [] == s.buf == [] + s.buf;
      SubsequenceRefl(s.buf);
    } else {
      var step, rest, h1 := steps[0], steps[1..], Next(h, steps[0]);
      NextKeepsInv(h, step);
      SubscriberStep(h, id, step);
      SubscriberConservation(h1, id, rest);
      MoveThenRun(s.buf, WantedOf(h.keyOf, s.filter, step), if step == DoReceive(id) then Taken(h, id) else [],
                  MissedOf(h, id, s.filter, step), h1.subs[id].buf,
                  Wanted(h.keyOf, s.filter, rest), TakenIn(h1, rest, id), Missed(h1, id, s.filter, rest),
                  Exec(h1, rest).subs[id].buf);
    }
  }

  /** The same from the moment of subscribing with a filter: the first queue is the filter's backlog. */
  lemma SinceSubscribing<E>(h: Hub<E>, filter: string, steps: seq<Step<E>>)
    requires Inv(h) && DoUnsubscribe(h.nextID + 1) !in steps
    ensures
      var h0, id := Subscribe(h, filter), h.nextID + 1;
      var h' := Exec(h0, steps);
      var all := (if filter in h.retained then h.retained[filter] else []) + Wanted(h.keyOf, filter, steps);
      && id in h'.subs && h'.subs[id].filter == filter
      && Subsequence(TakenIn(h0, steps, id) + h'.subs[id].buf, all)
      && multiset(all) == multiset(TakenIn(h0, steps, id) + h'.subs[id].buf) + multiset(Missed(h0, id, filter, steps))
  {
    SubscribeKeepsInv(h, filter);
    SubscriberConservation(Subscribe(h, filter), h.nextID + 1, steps);
  }

  /** Each entry a subscriber misses is one notification, and there are no others but for backlogs. */
  lemma RefusedIff<E>(h: Hub<E>, e: E, id: int)
    ensures id in Refused(h, e) <==>
      id in h.subs && Wants(h.keyOf, h.subs[id].filter, e) && |h.subs[id].buf| >= h.subs[id].cap
  {
  }

  // ---------- receiving ----------

  /** What is in a channel, open or closed. */
  ghost function Buffered<E>(h: Hub<E>, id: int): seq<E> {
    if id in h.subs then h.subs[id].buf else if id in h.gone then h.gone[id].buf else []
  }

  function Receiving<E>(id: int, n: nat): seq<Step<E>> {
    if n == 0 then [] else [DoReceive(id)] + Receiving(id, n - 1)
  }

  /** The first n entries of b, as far as there are that many, are taken and the others left. */
  ghost predicate OldestTaken<E>(b: seq<E>, n: nat, taken: seq<E>, left: seq<E>) {
    if n <= |b| then taken == b[..n] && left == b[n..] else taken == b && left == []
  }

  /**
   A reader that receives n times gets the n oldest entries of its channel, open or closed, as far
   as there are that many; only then does an open channel make it wait and a closed one end.
   */
  lemma ReadsOldestFirst<E>(h: Hub<E>, id: int, n: nat)
    ensures
      var steps: seq<Step<E>> := Receiving(id, n);
      var h' := Exec(h, steps);
      && OldestTaken(Buffered(h, id), n, TakenIn(h, steps, id), Buffered(h', id))
      && (Receive(h', id).Got? <==> n < |Buffered(h, id)|)
      && (n >= |Buffered(h, id)| ==> Receive(h', id) == if id in h.subs then Nothing else Closed)
  {
    ReceivesTakeOldest(h, id, n);
    OneReceive(Exec(h, Receiving(id, n)), id);
  }

  lemma {:induction false} ReceivesTakeOldest<E>(h: Hub<E>, id: int, n: nat)
    ensures
      var steps: seq<Step<E>> := Receiving(id, n);
      && OldestTaken(Buffered(h, id), n, TakenIn(h, steps, id), Buffered(Exec(h, steps), id))
      && (id in Exec(h, steps).subs <==> id in h.subs)
    decreases n
  {
    if n > 0 {
      var h1, rest: seq<Step<E>> := AfterReceive(h, id), Receiving(id, n - 1);
      OneReceive(h, id);
      ReceivesTakeOldest(h1, id, n - 1);
      FirstReceive(h, id, n);
      TakeFirst(Buffered(h, id), n, TakenIn(h1, rest, id), Buffered(Exec(h1, rest), id));
    }
  }

  lemma TakeFirst<E>(b: seq<E>, n: nat, taken: seq<E>, left: seq<E>)
    requires n > 0 && OldestTaken(if b == [] then [] else b[1..], n - 1, taken, left)
    ensures OldestTaken(b, n, (if b == [] then [] else [b[0]]) + taken, left)
  {
    if b != [] && n <= |b| {
      assert [b[0]] + b[1..][..n - 1] == b[..n] && b[1..][n - 1..] == b[n..];
    }
  }

  lemma FirstReceive<E>(h: Hub<E>, id: int, n: nat)
    requires n > 0
    ensures
      var h1, rest: seq<Step<E>> := AfterReceive(h, id), Receiving(id, n - 1);
      && TakenIn(h, Receiving(id, n), id) == Taken(h, id) + TakenIn(h1, rest, id)
      && Exec(h, Receiving(id, n)) == Exec(h1, rest)
  {
    assert Receiving<E>(id, n)[0] == DoReceive(id) && Receiving<E>(id, n)[1..] == Receiving(id, n - 1);
  }

  lemma OneReceive<E>(h: Hub<E>, id: int)
    ensures Taken(h, id) == if Buffered(h, id) == [] then [] else [Buffered(h, id)[0]]
    ensures Buffered(AfterReceive(h, id), id) == if Buffered(h, id) == [] then [] else Buffered(h, id)[1..]
    ensures id in AfterReceive(h, id).subs <==> id in h.subs
    ensures Receive(h, id).Got? <==> Buffered(h, id) != []
    ensures Buffered(h, id) == [] ==> Receive(h, id) == if id in h.subs then Nothing else Closed
  {
  }

  // ---------- what is retained ----------

  /** k was retained and not released since. */
  ghost predicate Retained<E>(steps: seq<Step<E>>, k: string) {
    exists i :: 0 <= i < |steps| && steps[i] == DoRetain(k) && DoRelease(k) !in steps[i..]
  }

  lemma RetainedStep<E>(h: Hub<E>, step: Step<E>, k: string)
    ensures k in Next(h, step).retained <==>
      (k in h.retained && step != DoRelease(k)) || (step == DoRetain(k) && k != "" && h.keyOf.Some?)
    ensures Next(h, step).keyOf == h.keyOf
  {
  }

  lemma RetainedFirst<E>(steps: seq<Step<E>>, k: string)
    requires steps != []
    ensures Retained(steps, k) <==> Retained(steps[1..], k) || (steps[0] == DoRetain(k) && DoRelease(k) !in steps)
  {
    if i :| 0 <= i < |steps| && steps[i] == DoRetain(k) && DoRelease(k) !in steps[i..] {
      if i > 0 {
        assert steps[1..][i - 1] == DoRetain(k) && steps[1..][i - 1..] == steps[i..];
      } else {
        assert steps[0..] == steps;
      }
    }
    if i :| 0 <= i < |steps[1..]| && steps[1..][i] == DoRetain(k) && DoRelease(k) !in steps[1..][i..] {
      assert steps[i + 1] == DoRetain(k) && steps[1..][i..] == steps[i + 1..];
    }
    if steps[0] == DoRetain(k) && DoRelease(k) !in steps {
      assert steps[0..] == steps;
    }
  }

  lemma {:induction false} RetainedFrom<E>(h: Hub<E>, steps: seq<Step<E>>, k: string)
    ensures k in Exec(h, steps).retained <==>
      (k in h.retained && DoRelease(k) !in steps) || (Retained(steps, k) && k != "" && h.keyOf.Some?)
    decreases |steps|
  {
    if steps != [] {
      RetainedStep(h, steps[0], k);
      RetainedFrom(Next(h, steps[0]), steps[1..], k);
      RetainedFirst(steps, k);
      assert DoRelease(k) in steps <==> steps[0] == DoRelease(k) || DoRelease(k) in steps[1..];
    }
  }

  /** After any run a key is retained exactly when it is a real key and was retained and not released since. */
  lemma RetainedIff<E>(keyOf: Option<E -> string>, steps: seq<Step<E>>, k: string)
    ensures k in Exec(NewHub(keyOf), steps).retained <==> Retained(steps, k) && k != "" && keyOf.Some?
  {
    RetainedFrom(NewHub(keyOf), steps, k);
  }

  /**
   A released key stays released until it is retained again: whoever subscribes to it finds an
   empty channel of the plain capacity, and whoever leaves puts nothing back.
   */
  lemma ReleasedKeepsNothing<E>(h: Hub<E>, k: string, steps: seq<Step<E>>)
    requires DoRetain(k) !in steps
    ensures
      var h' := Exec(Release(h, k), steps);
      var joined := Subscribe(h', k);
      && k !in h'.retained
      && joined.subs[joined.nextID] == Sub(k, 256, []) && k !in joined.retained
      && forall id :: Carries(h', id, k) ==> Unsubscribe(h', id).retained == h'.retained
  {
    RetainedFrom(Release(h, k), steps, k);
  }
}
