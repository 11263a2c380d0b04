/**
 The SSE /logs handler over the hub: one request subscribes, writes the entries it receives,
 and unsubscribes whichever way it leaves. What the select of the handler finds is given as
 a script, in which hub calls of other goroutines appear where they happen.
 */
module LogStream {
  import opened HubSpec
  import opened HubInvariants
  import opened HubFlow
  import opened LogHub

  datatype Event<+E> =
    | Disconnect
    | Drain
    | Keepalive(written: bool)
    | Take(marshalled: bool, written: bool)
    | Meanwhile(step: Step<E>)

  /**
   What a request, or one round of its loop, did: the hub afterwards, whether it left, and the
   entries written, torn (lost in hand to a failed write) and skipped (not marshallable).
   */
  datatype Outcome<!E> = Outcome(hub: Hub<E>, left: bool, written: seq<E>, torn: seq<E>, skipped: seq<E>)

  /** One outcome after another. */
  ghost function Then<E>(a: Outcome<E>, b: Outcome<E>): Outcome<E> {
    Outcome(b.hub, b.left, a.written + b.written, a.torn + b.torn, a.skipped + b.skipped)
  }

  ghost function Idle<E>(h: Hub<E>, left: bool): Outcome<E> { Outcome(h, left, [], [], []) }

  /** One round of the select. */
  ghost function Round<E>(h: Hub<E>, id: int, event: Event<E>): Outcome<E> {
    match event
    case Disconnect => Idle(h, true)
    case Drain => Idle(h, true)
    case Keepalive(ok) => Idle(h, !ok)
    case Meanwhile(step) => Idle(Next(h, step), false)
    case Take(marshalled, ok) =>
      match Receive(h, id)
      case Nothing => Idle(h, false)
      case Closed => Idle(h, true)
      case Got(e) =>
        var h' := AfterReceive(h, id);
        if !marshalled then Outcome(h', false, [], [], [e])
        else if !ok then Outcome(h', true, [], [e], [])
        else Outcome(h', false, [e], [], [])
  }

  /** The select loop, and the deferred Unsubscribe; a script that ends is the client's disconnect. */
  ghost function Loop<E>(h: Hub<E>, id: int, script: seq<Event<E>>): Outcome<E>
    decreases |script|
  {
    if script == [] then Idle(Unsubscribe(h, id), true)
    else
      var r := Round(h, id, script[0]);
      Then(r, if r.left then Idle(Unsubscribe(r.hub, id), true) else Loop(r.hub, id, script[1..]))
  }

  /** One request: a failed first write leaves at once. */
  ghost function Serve<E>(h: Hub<E>, filter: string, connected: bool, script: seq<Event<E>>): Outcome<E> {
    var h' := Subscribe(h, filter);
    if connected then Loop(h', h'.nextID, script) else Idle(Unsubscribe(h', h'.nextID), true)
  }

  method Select<E>(hub: LiveHub<E>, id: int, event: Event<E>)
    returns (left: bool, written: seq<E>, torn: seq<E>, skipped: seq<E>)
    modifies hub, hub.dropObserver
    ensures Outcome(hub.View(), left, written, torn, skipped) == Round(old(hub.View()), id, event)
  {
    left, written, torn, skipped := false, [], [], [];
    match event
    case Disconnect => left := true;
    case Drain => left := true;
    case Keepalive(ok) => left := !ok;
    case Meanwhile(step) => hub.Do(step);
    case Take(marshalled, ok) =>
      var r := hub.Receive(id);
      match r
      case Nothing =>
      case Closed => left := true;
      case Got(e) =>
        if !marshalled {
          skipped := [e];
        } else if !ok {
          left, torn := true, [e];
        } else {
          written := [e];
        }
  }

  /** The handler itself. */
  method HandleLogs<E>(hub: LiveHub<E>, filter: string, connected: bool, script: seq<Event<E>>)
    returns (written: seq<E>, torn: seq<E>, skipped: seq<E>)
    modifies hub, hub.dropObserver
    ensures Outcome(hub.View(), true, written, torn, skipped) == Serve(old(hub.View()), filter, connected, script)
  {
    written, torn, skipped := [], [], [];
    var id := hub.Subscribe(filter);
    if !connected {
      hub.Unsubscribe(id);
      return;
    }
    ghost var all := Loop(hub.View(), id, script);
    var left, i := false, 0;
    while !left && i < |script|
      invariant i <= |script|
      invariant all == Then(Outcome(hub.View(), left, written, torn, skipped),
                            if left then Idle(Unsubscribe(hub.View(), id), true) else Loop(hub.View(), id, script[i..]))
      decreases |script| - i
    {
      ghost var so, rest := Outcome(hub.View(), left, written, torn, skipped), script[i..];
      var w, t, s;
      left, w, t, s := Select(hub, id, script[i]);
      written, torn, skipped := written + w, torn + t, skipped + s;
      i := i + 1;
      assert rest[0] == script[i - 1] && rest[1..] == script[i..];
      ThenAssoc(so, Outcome(hub.View(), left, w, t, s),
                if left then Idle(Unsubscribe(hub.View(), id), true) else Loop(hub.View(), id, script[i..]));
    }
    hub.Unsubscribe(id);
  }

  lemma ThenAssoc<E>(a: Outcome<E>, b: Outcome<E>, c: Outcome<E>)
    ensures Then(a, Then(b, c)) == Then(Then(a, b), c)
  {
  }
}
