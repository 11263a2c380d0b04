/** Safety of the hub in every state a run can reach from a new hub. */
module HubInvariants {
  import opened Options
  import opened HubSpec

  /** A keyed queue holds only entries of its own key. */
  ghost predicate OwnKey<E>(keyOf: Option<E -> string>, filter: string, entries: seq<E>) {
    keyOf.Some? && filter != "" ==> forall e :: e in entries ==> Key(keyOf, e) == filter
  }

  ghost predicate ChannelOk<E>(h: Hub<E>, id: int, s: Sub<E>) {
    && 0 < id <= h.nextID
    && 256 <= s.cap <= 512
    && |s.buf| <= s.cap
    && OwnKey(h.keyOf, s.filter, s.buf)
  }

  /** What every step keeps. */
  ghost predicate Inv<E>(h: Hub<E>) {
    && 0 <= h.nextID
    && (forall id :: id in h.subs ==> ChannelOk(h, id, h.subs[id]))
    && (forall id :: id in h.gone ==> ChannelOk(h, id, h.gone[id]))
    && h.subs.Keys !! h.gone.Keys
    && (forall k :: k in h.retained ==> BacklogOk(h, k))
  }

  /** A backlog belongs to a real key, is bounded, holds its own key, and excludes subscribers on it. */
  ghost predicate BacklogOk<E>(h: Hub<E>, k: string)
    requires k in h.retained
  {
    && k != "" && h.keyOf.Some?
    && |h.retained[k]| <= 256
    && OwnKey(h.keyOf, k, h.retained[k])
    && (h.retained[k] != [] ==> !Holds(h, k))
  }

  lemma NextKeepsInv<E>(h: Hub<E>, step: Step<E>)
    requires Inv(h)
    ensures Inv(Next(h, step))
  {
    match step
    case DoRetain(k) => assert Inv(Retain(h, k));
    case DoRelease(k) => assert Inv(Release(h, k));
    case DoSubscribe(f) => SubscribeKeepsInv(h, f);
    case DoUnsubscribe(id) => UnsubscribeKeepsInv(h, id);
    case DoPublish(e) => PublishKeepsInv(h, e);
    case DoReceive(id) => ReceiveKeepsInv(h, id);
  }

  lemma SubscribeKeepsInv<E>(h: Hub<E>, f: string)
    requires Inv(h)
    ensures Inv(Subscribe(h, f))
  {
  }

  lemma UnsubscribeKeepsInv<E>(h: Hub<E>, id: int)
    requires Inv(h)
    ensures Inv(Unsubscribe(h, id))
  {
  }

  lemma PublishKeepsInv<E>(h: Hub<E>, e: E)
    requires Inv(h)
    ensures Inv(Publish(h, e))
  {
    var h' := Publish(h, e);
    forall id | id in h'.subs ensures ChannelOk(h', id, h'.subs[id]) {
      assert ChannelOk(h, id, h.subs[id]);
    }
    forall k | k in h'.retained ensures BacklogOk(h', k) {
      assert BacklogOk(h, k);
      assert forall x :: x in h'.retained[k] ==> x in h.retained[k] || x == e;
    }
  }

  lemma ReceiveKeepsInv<E>(h: Hub<E>, id: int)
    requires Inv(h)
    ensures Inv(AfterReceive(h, id))
  {
  }

  /** Every reachable state satisfies the invariant. */
  lemma {:induction false} RunKeepsInv<E>(h: Hub<E>, steps: seq<Step<E>>)
    requires Inv(h)
    ensures Inv(Exec(h, steps))
    decreases |steps|
  {
    if steps != [] {
      NextKeepsInv(h, steps[0]);
      RunKeepsInv(Next(h, steps[0]), steps[1..]);
    }
  }

  lemma NewHubInv<E>(keyOf: Option<E -> string>)
    ensures Inv(NewHub(keyOf))
  {
  }

  /**
   In every reachable state a non-empty backlog excludes subscribers on its key, so an
   Unsubscribe that requeues finds an empty backlog and puts back exactly what was unread.
   */
  lemma BacklogExclusion<E>(keyOf: Option<E -> string>, steps: seq<Step<E>>, id: int)
    ensures var h := Exec(NewHub(keyOf), steps);
      && (forall k :: k in h.retained && h.retained[k] != [] ==> !Holds(h, k))
      && (id in h.subs ==> Unread(h, id) == h.subs[id].buf)
  {
    NewHubInv(keyOf);
    RunKeepsInv(NewHub(keyOf), steps);
    var h := Exec(NewHub(keyOf), steps);
    assert forall k :: k in h.retained ==> BacklogOk(h, k);
    if id in h.subs {
      assert Holds(h, h.subs[id].filter);
    }
  }

  /** A run is its first part followed by its second. */
  lemma {:induction false} ExecAppend<E>(h: Hub<E>, a: seq<Step<E>>, b: seq<Step<E>>)
    ensures Exec(h, a + b) == Exec(Exec(h, a), b)
    decreases |a|
  {
    if a == [] {
      assert a + b == b;
    } else {
      assert (a + b)[1..] == a[1..] + b;
      ExecAppend(Next(h, a[0]), a[1..], b);
    }
  }

  lemma {:induction false} NextIDNeverFalls<E>(h: Hub<E>, steps: seq<Step<E>>)
    ensures h.nextID <= Exec(h, steps).nextID
    decreases |steps|
  {
    if steps != [] {
      NextIDNeverFalls(Next(h, steps[0]), steps[1..]);
    }
  }

  /** What later steps may do to a closed channel: take entries off its front. */
  ghost predicate OnlyDrained<E>(h: Hub<E>, h': Hub<E>, id: int) {
    && id in h.gone && id in h'.gone && id !in h'.subs
    && h'.gone[id].filter == h.gone[id].filter
    && |h'.gone[id].buf| <= |h.gone[id].buf|
    && h'.gone[id].buf == h.gone[id].buf[|h.gone[id].buf| - |h'.gone[id].buf|..]
  }

  lemma StepOnlyDrains<E>(h: Hub<E>, id: int, step: Step<E>)
    requires Inv(h) && id in h.gone
    ensures OnlyDrained(h, Next(h, step), id)
  {
    match step
    case DoUnsubscribe(other) => assert other == id ==> Unsubscribe(h, other) == h;
    case DoSubscribe(f) => assert ChannelOk(h, id, h.gone[id]);
    case DoReceive(other) => ReceiveOnlyDrains(h, id, other);
    case DoPublish(e) => assert Publish(h, e).subs.Keys == h.subs.Keys;
    case _ =>
  }

  lemma ReceiveOnlyDrains<E>(h: Hub<E>, id: int, other: int)
    requires Inv(h) && id in h.gone
    ensures OnlyDrained(h, AfterReceive(h, other), id)
  {
  }

  /**
   No id is handed out twice; a closed channel never reopens, is never closed again or sent
   to: whatever follows can only take entries off its front.
   */
  lemma {:induction false} ClosedChannelsOnlyDrain<E>(h: Hub<E>, id: int, steps: seq<Step<E>>)
    requires Inv(h) && id in h.gone
    ensures OnlyDrained(h, Exec(h, steps), id)
    decreases |steps|
  {
    if steps != [] {
      var h1 := Next(h, steps[0]);
      NextKeepsInv(h, steps[0]);
      StepOnlyDrains(h, id, steps[0]);
      ClosedChannelsOnlyDrain(h1, id, steps[1..]);
      DrainedTwice(h.gone[id].buf, h1.gone[id].buf, Exec(h1, steps[1..]).gone[id].buf);
    } else {
      assert h.gone[id].buf[0..] == h.gone[id].buf;
    }
  }

  lemma DrainedTwice<E>(a: seq<E>, b: seq<E>, c: seq<E>)
    requires |c| <= |b| <= |a| && b == a[|a| - |b|..] && c == b[|b| - |c|..]
    ensures c == a[|a| - |c|..]
  {
  }

  /**
   The id of a new subscriber is new to the whole run so far, and its channel takes the
   backlog without blocking: the backlog fits, with room for 256 live entries.
   */
  lemma SubscribeIsFreshAndNeverBlocks<E>(keyOf: Option<E -> string>, steps: seq<Step<E>>, earlier: nat, filter: string)
    requires earlier <= |steps|
    ensures
      var past := Exec(NewHub(keyOf), steps[..earlier]);
      var h := Exec(NewHub(keyOf), steps);
      var h' := Subscribe(h, filter);
      var id := h'.nextID;
      && id in h'.subs && id !in past.subs && id !in past.gone
      && h'.subs[id].buf == Held(h, filter)
      && h'.subs[id].cap == 256 + |Held(h, filter)| <= 512
      && Held(h', filter) == []
  {
    var past := Exec(NewHub(keyOf), steps[..earlier]);
    NewHubInv(keyOf);
    RunKeepsInv(NewHub(keyOf), steps[..earlier]);
    RunKeepsInv(NewHub(keyOf), steps);
    assert steps == steps[..earlier] + steps[earlier..];
    ExecAppend(NewHub(keyOf), steps[..earlier], steps[earlier..]);
    NextIDNeverFalls(past, steps[earlier..]);
    var h := Exec(NewHub(keyOf), steps);
    assert filter in h.retained ==> BacklogOk(h, filter);
    var id := h.nextID + 1;
    assert id in past.subs ==> ChannelOk(past, id, past.subs[id]);
    assert id in past.gone ==> ChannelOk(past, id, past.gone[id]);
  }
}
