/**
 What one /logs request does, for any filter and any state of the hub: it is a run of hub steps
 that its script fixes, and what it writes is what it received. Nothing here is said in terms of
 the handler's own rounds.
 */
module LogRequests {
  import opened HubSpec
  import opened HubInvariants
  import opened HubFlow
  import opened HubReceives
  import opened LogStream
  import opened LogSessions

  /** The hub steps of an event of the script: one receive for an attempt to take an entry. */
  function EventSteps<E>(id: int, event: Event<E>): seq<Step<E>> {
    match event
    case Take(_, _) => [DoReceive(id)]
    case Meanwhile(step) => [step]
    case _ => []
  }

  function ScriptSteps<E>(id: int, script: seq<Event<E>>): seq<Step<E>> {
    if script == [] then [] else EventSteps(id, script[0]) + ScriptSteps(id, script[1..])
  }

  /** In state h this event makes the handler leave. */
  ghost predicate Leaves<E>(h: Hub<E>, id: int, event: Event<E>) {
    match event
    case Disconnect => true
    case Drain => true
    case Keepalive(written) => !written
    case Take(marshalled, written) => Receive(h, id) == Closed || (Receive(h, id).Got? && marshalled && !written)
    case Meanwhile(_) => false
  }

  /** How much of the script is acted on: up to the first event that leaves, or all of it. */
  ghost function ActedOn<E>(h: Hub<E>, id: int, script: seq<Event<E>>): (n: nat)
    ensures n <= |script|
    decreases |script|
  {
    if script == [] then 0
    else if Leaves(h, id, script[0]) then 1
    else 1 + ActedOn(Exec(h, EventSteps(id, script[0])), id, script[1..])
  }

  datatype Fate = Written | Torn | Skipped

  /** An entry received in the course of a script, and what becomes of it: marshalling comes before the write. */
  datatype Receipt<+E> = Receipt(entry: E, fate: Fate)

  function FateOf(marshalled: bool, written: bool): Fate {
    if !marshalled then Skipped else if written then Written else Torn
  }

  ghost function EventReceipts<E>(h: Hub<E>, id: int, event: Event<E>): seq<Receipt<E>> {
    if event.Take? && Receive(h, id).Got? then [Receipt(Receive(h, id).entry, FateOf(event.marshalled, event.written))] else []
  }

  ghost function Receipts<E>(h: Hub<E>, id: int, script: seq<Event<E>>): seq<Receipt<E>>
    decreases |script|
  {
    if script == [] then []
    else EventReceipts(h, id, script[0]) + Receipts(Exec(h, EventSteps(id, script[0])), id, script[1..])
  }

  /** The entries with one of these fates, in order. */
  function Entries<E>(receipts: seq<Receipt<E>>, fates: set<Fate>): seq<E> {
    if receipts == [] then []
    else (if receipts[0].fate in fates then [receipts[0].entry] else []) + Entries(receipts[1..], fates)
  }

  const ANY: set<Fate> := {Written, Torn, Skipped}

  /** What was written, torn and skipped are the receipts of these kinds, in order. */
  ghost predicate Sorts<E>(receipts: seq<Receipt<E>>, o: Outcome<E>) {
    && o.written == Entries(receipts, {Written})
    && o.torn == Entries(receipts, {Torn})
    && o.skipped == Entries(receipts, {Skipped})
  }

  lemma {:induction false} EntriesAppend<E>(a: seq<Receipt<E>>, b: seq<Receipt<E>>, fates: set<Fate>)
    ensures Entries(a + b, fates) == Entries(a, fates) + Entries(b, fates)
  {
    if a == [] {
      assert a + b == b;
    } else {
      EntriesAppend(a[1..], b, fates);
      assert a + b == [a[0]] + (a[1..] + b) && a == [a[0]] + a[1..];
      FirstEntry(a[0], a[1..] + b, fates);
      FirstEntry(a[0], a[1..], fates);
    }
  }

  lemma FirstEntry<E>(r: Receipt<E>, rest: seq<Receipt<E>>, fates: set<Fate>)
    ensures Entries([r] + rest, fates) == (if r.fate in fates then [r.entry] else []) + Entries(rest, fates)
  {
    assert ([r] + rest)[1..] == rest;
  }

  /** A round is its hub steps, its receipt, and whether it leaves. */
  lemma RoundIs<E>(h: Hub<E>, id: int, event: Event<E>)
    ensures
      var r := Round(h, id, event);
      && r.hub == Exec(h, EventSteps(id, event)) && (r.left <==> Leaves(h, id, event))
      && Sorts(EventReceipts(h, id, event), r)
  {
    match event
    case Take(_, _) => Single(h, DoReceive(id));
    case Meanwhile(step) => Single(h, step);
    case _ =>
  }

  lemma SortsThen<E>(a: seq<Receipt<E>>, o: Outcome<E>, b: seq<Receipt<E>>, p: Outcome<E>)
    requires Sorts(a, o) && Sorts(b, p)
    ensures Sorts(a + b, Then(o, p))
  {
    EntriesAppend(a, b, {Written});
    EntriesAppend(a, b, {Torn});
    EntriesAppend(a, b, {Skipped});
  }

  /** The steps and receipts of a script's beginning are those of its first event and of the rest. */
  lemma ScriptFirst<E>(h: Hub<E>, id: int, script: seq<Event<E>>, n: nat)
    requires script != [] && n < |script|
    ensures
      var first, rest := EventSteps(id, script[0]), script[1..][..n];
      && ScriptSteps(id, script[..n + 1]) == first + ScriptSteps(id, rest)
      && Receipts(h, id, script[..n + 1]) == EventReceipts(h, id, script[0]) + Receipts(Exec(h, first), id, rest)
  {
    var acted := script[..n + 1];
    assert acted[0] == script[0] && acted[1..] == script[1..][..n];
  }

  lemma {:induction false} LoopIsRun<E>(h: Hub<E>, id: int, script: seq<Event<E>>)
    ensures
      var o, acted := Loop(h, id, script), script[..ActedOn(h, id, script)];
      && o.hub == Unsubscribe(Exec(h, ScriptSteps(id, acted)), id)
      && Sorts(Receipts(h, id, acted), o)
    decreases |script|
  {
    if script != [] {
      var r, first := Round(h, id, script[0]), EventSteps(id, script[0]);
      var n := if r.left then 0 else ActedOn(r.hub, id, script[1..]);
      var rest := script[1..][..n];
      RoundIs(h, id, script[0]);
      ScriptFirst(h, id, script, n);
      ExecAppend(h, first, ScriptSteps(id, rest));
      if r.left {
        SortsThen(EventReceipts(h, id, script[0]), r, [], Idle(Unsubscribe(r.hub, id), true));
      } else {
        LoopIsRun(r.hub, id, script[1..]);
        SortsThen(EventReceipts(h, id, script[0]), r, Receipts(r.hub, id, rest), Loop(r.hub, id, script[1..]));
      }
    }
  }

  /**
   A connected request, for any filter and in any state: subscribe, the steps of its script up to
   the first event that makes it leave, unsubscribe. It writes the entries received in rounds whose
   marshalling and write succeed, in order, tears those whose write fails, and skips the rest.
   */
  lemma RequestIsRun<E>(h: Hub<E>, filter: string, script: seq<Event<E>>)
    ensures
      var o, h0, id := Serve(h, filter, true, script), Subscribe(h, filter), h.nextID + 1;
      var acted := script[..ActedOn(h0, id, script)];
      && o.hub == Exec(h, [DoSubscribe(filter)] + ScriptSteps(id, acted) + [DoUnsubscribe(id)])
      && Sorts(Receipts(h0, id, acted), o)
  {
    var h0, id := Subscribe(h, filter), h.nextID + 1;
    LoopIsRun(h0, id, script);
    ServeIsLoop(h, filter, script, h0, id);
    BetweenSubscribeAndLeave(h, filter, h0, id, ScriptSteps(id, script[..ActedOn(h0, id, script)]));
  }

  lemma ServeIsLoop<E>(h: Hub<E>, filter: string, script: seq<Event<E>>, h0: Hub<E>, id: int)
    requires h0 == Subscribe(h, filter) && id == h.nextID + 1
    ensures Serve(h, filter, true, script) == Loop(h0, id, script)
  {
    assert h0.nextID == id;
  }

  lemma BetweenSubscribeAndLeave<E>(h: Hub<E>, filter: string, h0: Hub<E>, id: int, steps: seq<Step<E>>)
    requires h0 == Subscribe(h, filter)
    ensures Exec(h, [DoSubscribe(filter)] + steps + [DoUnsubscribe(id)]) == Unsubscribe(Exec(h0, steps), id)
  {
    ExecAppend(h, [DoSubscribe(filter)] + steps, [DoUnsubscribe(id)]);
    ExecAppend(h, [DoSubscribe(filter)], steps);
    Single(h, DoSubscribe(filter));
    Single(Exec(h0, steps), DoUnsubscribe(id));
  }

  lemma Single<E>(h: Hub<E>, step: Step<E>)
    ensures Exec(h, [step]) == Next(h, step)
  {
  }

  /** A request whose first write fails subscribes and unsubscribes, and that is all. */
  lemma UnconnectedLeaves<E>(h: Hub<E>, filter: string, script: seq<Event<E>>)
    ensures
      var h0, id := Next(h, DoSubscribe(filter)), h.nextID + 1;
      Serve(h, filter, false, script) == Outcome(Next(h0, DoUnsubscribe(id)), true, [], [], [])
  {
    assert Subscribe(h, filter).nextID == h.nextID + 1;
  }

  /** When nobody else receives on channel id, the receipts are all that was received on it. */
  lemma {:induction false} ReceiptsAreTaken<E>(h: Hub<E>, id: int, script: seq<Event<E>>)
    requires Meanwhile(DoReceive(id)) !in script
    ensures Entries(Receipts(h, id, script), ANY) == TakenIn(h, ScriptSteps(id, script), id)
    decreases |script|
  {
    if script != [] {
      var first, rest := EventSteps(id, script[0]), script[1..];
      ReceiptsAreTaken(Exec(h, first), id, rest);
      EntriesAppend(EventReceipts(h, id, script[0]), Receipts(Exec(h, first), id, rest), ANY);
      TakenAppend(h, first, ScriptSteps(id, rest), id);
      EventTaken(h, id, script[0]);
    }
  }

  lemma EventTaken<E>(h: Hub<E>, id: int, event: Event<E>)
    requires event != Meanwhile(DoReceive(id))
    ensures Entries(EventReceipts(h, id, event), ANY) == TakenIn(h, EventSteps(id, event), id)
  {
    match event
    case Take(_, _) => SingleTaken(h, id, DoReceive(id));
    case Meanwhile(step) => SingleTaken(h, id, step);
    case _ =>
  }

  lemma SingleTaken<E>(h: Hub<E>, id: int, step: Step<E>)
    ensures TakenIn(h, [step], id) == if step == DoReceive(id) then Taken(h, id) else []
  {
  }

  /**
   Of the entries received on its channel a request writes an in-order subsequence; the others
   were torn, at most one, or skipped.
   */
  lemma RequestHandles<E>(h: Hub<E>, filter: string, script: seq<Event<E>>)
    requires Meanwhile(DoReceive(h.nextID + 1)) !in script
    ensures HandlesTaken(Subscribe(h, filter), h.nextID + 1, script, Serve(h, filter, true, script))
  {
    ServeIsLoop(h, filter, script, Subscribe(h, filter), h.nextID + 1);
    LoopHandles(Subscribe(h, filter), h.nextID + 1, script, Serve(h, filter, true, script));
  }

  /** The entries received on channel id up to the event that leaves were handled like this. */
  ghost predicate HandlesTaken<E>(h: Hub<E>, id: int, script: seq<Event<E>>, o: Outcome<E>) {
    Handled(TakenIn(h, ScriptSteps(id, script[..ActedOn(h, id, script)]), id), o) && |o.torn| <= 1
  }

  lemma LoopHandles<E>(h: Hub<E>, id: int, script: seq<Event<E>>, o: Outcome<E>)
    requires Meanwhile(DoReceive(id)) !in script && o == Loop(h, id, script)
    ensures HandlesTaken(h, id, script, o)
  {
    var acted := script[..ActedOn(h, id, script)];
    LoopIsRun(h, id, script);
    OfPrefix(script, |acted|, Meanwhile(DoReceive(id)));
    ReceiptsAreTaken(h, id, acted);
    FatesPartition(Receipts(h, id, acted), o);
    TornOnce(h, id, script);
  }

  lemma OfPrefix<T>(s: seq<T>, n: nat, x: T)
    requires n <= |s| && x !in s
    ensures x !in s[..n]
  {
  }

  lemma {:induction false} FatesPartition<E>(rs: seq<Receipt<E>>, o: Outcome<E>)
    requires Sorts(rs, o)
    ensures Handled(Entries(rs, ANY), o)
    decreases |rs|
  {
    if rs == [] {
      SubsequenceRefl<E>([]);
    } else {
      var e, rest := rs[0].entry, rs[1..];
      var o' := o.(written := Entries(rest, {Written}), torn := Entries(rest, {Torn}), skipped := Entries(rest, {Skipped}));
      FatesPartition(rest, o');
      OneFate(e, rs[0].fate, Entries(rest, ANY), o, o');
    }
  }

  lemma OneFate<E>(e: E, fate: Fate, all: seq<E>, o: Outcome<E>, o': Outcome<E>)
    requires Handled(all, o')
    requires o.written == (if fate == Written then [e] else []) + o'.written
    requires o.torn == (if fate == Torn then [e] else []) + o'.torn
    requires o.skipped == (if fate == Skipped then [e] else []) + o'.skipped
    ensures Handled([e] + all, o)
  {
    if fate == Written {
      SubsequencePrefix([e], o'.written, [], all);
      assert [e] + [] + all == [e] + all;
    } else {
      SubsequencePrefix([], o'.written, [e], all);
      assert [] + [e] + all == [e] + all;
    }
  }

  lemma {:induction false} TornOnce<E>(h: Hub<E>, id: int, script: seq<Event<E>>)
    ensures |Loop(h, id, script).torn| <= 1
    decreases |script|
  {
    if script != [] && !Round(h, id, script[0]).left {
      TornOnce(Round(h, id, script[0]).hub, id, script[1..]);
    }
  }

  /** When every entry can be marshalled and written, a request writes exactly what it received. */
  lemma WritesAllReceived<E>(h: Hub<E>, filter: string, script: seq<Event<E>>)
    requires Meanwhile(DoReceive(h.nextID + 1)) !in script
    requires forall i :: 0 <= i < |script| && script[i].Take? ==> script[i] == Take(true, true)
    ensures
      var o, h0, id := Serve(h, filter, true, script), Subscribe(h, filter), h.nextID + 1;
      var acted := script[..ActedOn(h0, id, script)];
      && o.written == TakenIn(h0, ScriptSteps(id, acted), id) && o.torn == o.skipped == []
  {
    var h0, id := Subscribe(h, filter), h.nextID + 1;
    RequestIsRun(h, filter, script);
    ReceivedIsWritten(h0, id, script, ActedOn(h0, id, script));
  }

  lemma ReceivedIsWritten<E>(h: Hub<E>, id: int, script: seq<Event<E>>, n: nat)
    requires n <= |script| && Meanwhile(DoReceive(id)) !in script
    requires forall i :: 0 <= i < |script| && script[i].Take? ==> script[i] == Take(true, true)
    ensures var rs := Receipts(h, id, script[..n]);
      && Entries(rs, {Written}) == TakenIn(h, ScriptSteps(id, script[..n]), id)
      && Entries(rs, {Torn}) == Entries(rs, {Skipped}) == []
  {
    ReceiptsAreTaken(h, id, script[..n]);
    AllWritten(h, id, script[..n]);
  }

  lemma {:induction false} AllWritten<E>(h: Hub<E>, id: int, script: seq<Event<E>>)
    requires forall i :: 0 <= i < |script| && script[i].Take? ==> script[i] == Take(true, true)
    ensures
      var rs := Receipts(h, id, script);
      Entries(rs, {Written}) == Entries(rs, ANY) && Entries(rs, {Torn}) == Entries(rs, {Skipped}) == []
    decreases |script|
  {
    if script != [] {
      var first, rest := EventReceipts(h, id, script[0]), Receipts(Exec(h, EventSteps(id, script[0])), id, script[1..]);
      AllWritten(Exec(h, EventSteps(id, script[0])), id, script[1..]);
      EntriesAppend(first, rest, {Written});
      EntriesAppend(first, rest, {Torn});
      EntriesAppend(first, rest, {Skipped});
      EntriesAppend(first, rest, ANY);
      assert first != [] ==> first[0].fate == Written && first[1..] == [];
    }
  }
}
