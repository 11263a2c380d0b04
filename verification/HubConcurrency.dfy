/**
 Runs of whole hub calls with receives anywhere inside them: they refine runs of atomic steps, so
 what is proved of those holds here. Publish and Unsubscribe are the calls with several operations
 on channels that others can reach; Subscribe fills its channel before anyone else has it.
 */
module HubConcurrency {
  import opened HubSpec
  import opened HubInvariants
  import opened HubFlow
  import opened HubReceives
  import opened HubPublish
  import opened HubDrain

  /** A step with no receive inside it, or a call whose channel operations receives interleave with. */
  datatype Call<+E> =
    | Whole(step: Step<E>)
    | Sending(e: E, touches: seq<Touch>)
    | Requeuing(id: int, draws: seq<Draw>)

  /** The call can happen like this in state h, and no reader overtakes its drain. */
  ghost predicate Interleaves<E>(h: Hub<E>, call: Call<E>) {
    match call
    case Whole(_) => true
    case Sending(_, touches) => SendsToAll(h, touches)
    case Requeuing(id, draws) => id in h.subs && Requeues(h, id) && !Overtakes(Begin(h, id), id, draws)
  }

  ghost function AfterCall<E>(h: Hub<E>, call: Call<E>): Hub<E>
    requires Interleaves(h, call)
  {
    match call
    case Whole(step) => Next(h, step)
    case Sending(e, touches) => PublishTouching(h, e, touches)
    case Requeuing(id, draws) => End(DrawAll(Begin(h, id), id, draws), id)
  }

  /** The entries readers of channel x received during the call. */
  ghost function TakenDuring<E>(h: Hub<E>, call: Call<E>, x: int): seq<E>
    requires Interleaves(h, call)
  {
    match call
    case Whole(step) => if step == DoReceive(x) then Taken(h, x) else []
    case Sending(e, touches) => TakenFrom(h, e, touches, x)
    case Requeuing(id, draws) => DrawnBy(Begin(h, id), id, draws, x)
  }

  ghost function PublishedDuring<E>(h: Hub<E>, k: string, call: Call<E>): seq<E> {
    match call
    case Whole(step) => PublishedBy(h, k, step)
    case Sending(e, _) => PublishedBy(h, k, DoPublish(e))
    case Requeuing(_, _) => []
  }

  /** What k's subscriber reads during the call. */
  ghost function ReadDuring<E>(h: Hub<E>, k: string, call: Call<E>): seq<E>
    requires Interleaves(h, call)
  {
    if Holds(h, k) then TakenDuring(h, call, Carrier(h, k)) else []
  }

  /** The call as atomic steps. */
  ghost function CallSteps<E>(h: Hub<E>, call: Call<E>): seq<Step<E>>
    requires Interleaves(h, call)
  {
    match call
    case Whole(step) => [step]
    case Sending(e, touches) => Around(touches, e)
    case Requeuing(id, draws) => EarlyReads(Begin(h, id), id, draws) + [DoUnsubscribe(id)]
  }

  lemma CallIsAtomic<E>(h: Hub<E>, call: Call<E>, x: int)
    requires Inv(h) && Interleaves(h, call)
    ensures AfterCall(h, call) == Exec(h, CallSteps(h, call))
    ensures TakenDuring(h, call, x) == TakenIn(h, CallSteps(h, call), x)
  {
    match call
    case Whole(step) =>
    case Sending(e, touches) => PublishIsAtomic(h, e, touches);
    case Requeuing(id, draws) => UnsubscribeIsAtomic(h, id, draws, x);
  }

  /** Steps that leave every subscriber where it is. */
  ghost predicate Stays<E>(step: Step<E>) { step.DoReceive? || step.DoPublish? }

  lemma StayingStep<E>(h: Hub<E>, k: string, step: Step<E>)
    requires Window(h, k) && Stays(step)
    ensures Window(Next(h, step), k) && Exclusive(h, k, step)
    ensures Holds(Next(h, step), k) <==> Holds(h, k)
    ensures Holds(h, k) ==> Carrier(Next(h, step), k) == Carrier(h, k)
    ensures ReadBy(h, k, step) == if Holds(h, k) && step == DoReceive(Carrier(h, k)) then Taken(h, Carrier(h, k)) else []
  {
    StepMoves(h, k, step);
    assert forall id :: Carries(h, id, k) <==> Carries(Next(h, step), id, k);
    if Holds(h, k) {
      CarrierIs(Next(h, step), k, Carrier(h, k));
    } else {
      assert forall id :: !Carries(Next(h, step), id, k);
    }
  }

  /** While its subscriber stays, what k's readers read is what is taken from its channel. */
  lemma {:induction false} ReadsAreTaken<E>(h: Hub<E>, k: string, steps: seq<Step<E>>)
    requires Window(h, k) && forall i :: 0 <= i < |steps| ==> Stays(steps[i])
    ensures Reads(h, k, steps) == if Holds(h, k) then TakenIn(h, steps, Carrier(h, k)) else []
    ensures ExclusiveRun(h, k, steps) && Window(Exec(h, steps), k)
    decreases |steps|
  {
    if steps != [] {
      StayingStep(h, k, steps[0]);
      ReadsAreTaken(Next(h, steps[0]), k, steps[1..]);
    }
  }

  lemma {:induction false} ReceivesPublishNothing<E>(h: Hub<E>, k: string, steps: seq<Step<E>>)
    requires forall i :: 0 <= i < |steps| ==> steps[i].DoReceive?
    ensures Published(h, k, steps) == [] && Exec(h, steps).keyOf == h.keyOf
    decreases |steps|
  {
    if steps != [] {
      ReceivesPublishNothing(Next(h, steps[0]), k, steps[1..]);
    }
  }

  lemma {:induction false} ReceivesAreReceives<E>(ts: seq<Touch>)
    requires OnlyTakes(ts)
    ensures forall i :: 0 <= i < |Receives<E>(ts)| ==> Receives<E>(ts)[i].DoReceive?
  {
    if ts != [] {
      ReceivesAreReceives<E>(ts[1..]);
    }
  }

  lemma SendingFlow<E>(h: Hub<E>, k: string, e: E, ts: seq<Touch>)
    requires Window(h, k)
    ensures
      var steps := Around(ts, e);
      && ExclusiveRun(h, k, steps) && Published(h, k, steps) == PublishedBy(h, k, DoPublish(e))
      && Reads(h, k, steps) == if Holds(h, k) then TakenIn(h, steps, Carrier(h, k)) else []
  {
    PartsAreTakes(ts);
    var a, b := Receives<E>(Early(ts)), Receives<E>(Late(ts));
    ReceivesAreReceives<E>(Early(ts));
    ReceivesAreReceives<E>(Late(ts));
    ReadsAreTaken(h, k, Around(ts, e));
    FlowAppend(h, k, a + [DoPublish(e)], b);
    FlowAppend(h, k, a, [DoPublish(e)]);
    OneStep(Exec(h, a), k, DoPublish(e));
    ReceivesPublishNothing(h, k, a);
    ReceivesPublishNothing(Exec(h, a + [DoPublish(e)]), k, b);
  }

  lemma RequeuingFlow<E>(h: Hub<E>, k: string, received: seq<Step<E>>, id: int)
    requires Window(h, k) && forall i :: 0 <= i < |received| ==> received[i].DoReceive?
    ensures
      var steps := received + [DoUnsubscribe(id)];
      && ExclusiveRun(h, k, steps) && Published(h, k, steps) == []
      && Reads(h, k, steps) == if Holds(h, k) then TakenIn(h, steps, Carrier(h, k)) else []
  {
    ReadsAreTaken(h, k, received);
    ReceivesPublishNothing(h, k, received);
    var g := Exec(h, received);
    FlowAppend(h, k, received, [DoUnsubscribe(id)]);
    OneStep(g, k, DoUnsubscribe(id));
    if Holds(h, k) {
      TakenAppend(h, received, [DoUnsubscribe(id)], Carrier(h, k));
      OneLeave(g, id, Carrier(h, k));
    }
  }

  /** One call keeps step with its atomic steps, as far as k's pipeline goes. */
  lemma CallFlow<E>(h: Hub<E>, k: string, call: Call<E>)
    requires Window(h, k) && Interleaves(h, call) && (call.Whole? ==> Exclusive(h, k, call.step))
    ensures
      var steps := CallSteps(h, call);
      && AfterCall(h, call) == Exec(h, steps) && ExclusiveRun(h, k, steps)
      && Reads(h, k, steps) == ReadDuring(h, k, call) && Published(h, k, steps) == PublishedDuring(h, k, call)
  {
    CallIsAtomic(h, call, if Holds(h, k) then Carrier(h, k) else 0);
    match call
    case Whole(step) => WholeFlow(h, k, step);
    case Sending(e, touches) => SendingFlow(h, k, e, touches);
    case Requeuing(id, draws) =>
      EarlyReadsAreReceives(Begin(h, id), id, draws);
      RequeuingFlow(h, k, EarlyReads(Begin(h, id), id, draws), id);
  }

  lemma WholeFlow<E>(h: Hub<E>, k: string, step: Step<E>)
    requires Window(h, k) && Exclusive(h, k, step)
    ensures ExclusiveRun(h, k, [step]) && Published(h, k, [step]) == PublishedBy(h, k, step)
    ensures Reads(h, k, [step]) == ReadDuring(h, k, Whole(step))
  {
    OneStep(h, k, step);
    if step.DoReceive? && Carries(h, step.id, k) {
      CarrierIs(h, k, step.id);
    }
  }

  /** In every state of the run the call can happen like that, and k stays retained and unshared. */
  ghost predicate ExclusiveCalls<E>(h: Hub<E>, k: string, calls: seq<Call<E>>)
    decreases |calls|
  {
    calls != [] ==>
      && Interleaves(h, calls[0]) && (calls[0].Whole? ==> Exclusive(h, k, calls[0].step))
      && ExclusiveCalls(AfterCall(h, calls[0]), k, calls[1..])
  }

  /** The whole run: its last state, what k's readers read, what was published for k, and its atomic steps. */
  datatype Trace<!E> = Trace(hub: Hub<E>, read: seq<E>, published: seq<E>, steps: seq<Step<E>>)

  ghost function TraceOf<E>(h: Hub<E>, k: string, calls: seq<Call<E>>): Trace<E>
    requires ExclusiveCalls(h, k, calls)
    decreases |calls|
  {
    if calls == [] then Trace(h, [], [], [])
    else
      var rest := TraceOf(AfterCall(h, calls[0]), k, calls[1..]);
      Trace(rest.hub, ReadDuring(h, k, calls[0]) + rest.read, PublishedDuring(h, k, calls[0]) + rest.published,
            CallSteps(h, calls[0]) + rest.steps)
  }

  lemma {:induction false} TraceIsRun<E>(h: Hub<E>, k: string, calls: seq<Call<E>>)
    requires Window(h, k) && ExclusiveCalls(h, k, calls)
    ensures
      var t := TraceOf(h, k, calls);
      && t.hub == Exec(h, t.steps) && ExclusiveRun(h, k, t.steps)
      && t.read == Reads(h, k, t.steps) && t.published == Published(h, k, t.steps)
    decreases |calls|
  {
    if calls != [] {
      var first, h' := CallSteps(h, calls[0]), AfterCall(h, calls[0]);
      CallFlow(h, k, calls[0]);
      WindowConservation(h, k, first);
      TraceIsRun(h', k, calls[1..]);
      FlowAppend(h, k, first, TraceOf(h', k, calls[1..]).steps);
    }
  }

  /**
   Conservation and order with receives anywhere: over any run of calls in which k stays retained
   and unshared, and no reader overtakes a drain, what k's subscribers read, then what is
   pending, is an in-order subsequence of what was pending and published; the rest was dropped.
   */
  lemma ConcurrentConservation<E>(h: Hub<E>, k: string, calls: seq<Call<E>>)
    requires Window(h, k) && ExclusiveCalls(h, k, calls)
    ensures
      var t := TraceOf(h, k, calls);
      && Window(t.hub, k)
      && Subsequence(t.read + Pending(t.hub, k), Pending(h, k) + t.published)
      && multiset(Pending(h, k) + t.published) == multiset(t.read + Pending(t.hub, k)) + multiset(Lost(h, k, t.steps))
  {
    TraceIsRun(h, k, calls);
    WindowConservation(h, k, TraceOf(h, k, calls).steps);
  }
}
