/** What receives take over a run of atomic steps, and what they leave alone. */
module HubReceives {
  import opened HubSpec

  /** The entries a run of atomic steps receives from channel x. */
  ghost function TakenIn<E>(h: Hub<E>, steps: seq<Step<E>>, x: int): seq<E>
    decreases |steps|
  {
    if steps == [] then []
    else (if steps[0] == DoReceive(x) then Taken(h, x) else []) + TakenIn(Next(h, steps[0]), steps[1..], x)
  }

  ghost function Taken<E>(h: Hub<E>, x: int): seq<E> {
    if Receive(h, x).Got? then [Receive(h, x).entry] else []
  }

  lemma {:induction false} TakenAppend<E>(h: Hub<E>, a: seq<Step<E>>, b: seq<Step<E>>, x: int)
    ensures TakenIn(h, a + b, x) == TakenIn(h, a, x) + TakenIn(Exec(h, a), b, x)
    decreases |a|
  {
    if a == [] {
      assert a + b == b;
    } else {
      assert (a + b)[0] == a[0] && (a + b)[1..] == a[1..] + b;
      TakenAppend(Next(h, a[0]), a[1..], b, x);
    }
  }

  /** The same subscribers with the same filters, backlogs and ids; channels may hold different entries. */
  ghost predicate SameShape<E>(h: Hub<E>, g: Hub<E>) {
    && h.keyOf == g.keyOf && h.nextID == g.nextID && h.retained == g.retained
    && h.subs.Keys == g.subs.Keys && forall id :: id in h.subs ==> g.subs[id].filter == h.subs[id].filter
  }

  lemma {:induction false} ReceivesKeepShape<E>(h: Hub<E>, steps: seq<Step<E>>)
    requires forall i :: 0 <= i < |steps| ==> steps[i].DoReceive?
    ensures SameShape(h, Exec(h, steps))
    decreases |steps|
  {
    if steps != [] {
      ReceivesKeepShape(AfterReceive(h, steps[0].id), steps[1..]);
    }
  }
}
