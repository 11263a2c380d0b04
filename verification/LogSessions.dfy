/**
 What the clients of one retained key receive over any number of /logs requests, one at a
 time, whichever way each of them ends.
 */
module LogSessions {
  import opened HubSpec
  import opened HubInvariants
  import opened HubFlow
  import opened LogStream

  // ---------- a request is a run of hub steps ----------

  ghost function RoundSteps<E>(id: int, event: Event<E>): seq<Step<E>> {
    match event
    case Meanwhile(step) => [step]
    case Take(_, _) => [DoReceive(id)]
    case _ => []
  }

  ghost function LoopSteps<E>(h: Hub<E>, id: int, script: seq<Event<E>>): seq<Step<E>>
    decreases |script|
  {
    if script == [] then [DoUnsubscribe(id)]
    else
      var r := Round(h, id, script[0]);
      RoundSteps(id, script[0]) + if r.left then [DoUnsubscribe(id)] else LoopSteps(r.hub, id, script[1..])
  }

  ghost function ServeSteps<E>(h: Hub<E>, filter: string, connected: bool, script: seq<Event<E>>): seq<Step<E>> {
    var h' := Subscribe(h, filter);
    [DoSubscribe(filter)] + if connected then LoopSteps(h', h'.nextID, script) else [DoUnsubscribe(h'.nextID)]
  }

  /** Steps of other goroutines: none subscribes to or releases k. */
  ghost predicate Quiet<E>(k: string, step: Step<E>) {
    step != DoRelease(k) && step != DoSubscribe(k)
  }

  /** During a request nobody else uses its channel or its id. */
  ghost predicate QuietScript<E>(id: int, k: string, script: seq<Event<E>>) {
    forall i :: 0 <= i < |script| && script[i].Meanwhile? ==>
      Quiet(k, script[i].step) && script[i].step != DoReceive(id) && script[i].step != DoUnsubscribe(id)
  }

  /** The entries read, by what the handler did with them: those written keep their order. */
  ghost predicate Handled<E>(taken: seq<E>, o: Outcome<E>) {
    && Subsequence(o.written, taken)
    && multiset(taken) == multiset(o.written) + multiset(o.torn) + multiset(o.skipped)
  }

  /** A request, or its loop, and its steps: same hub, k retained and free afterwards, and what was read is handled. */
  ghost predicate Flows<E>(h: Hub<E>, k: string, o: Outcome<E>, steps: seq<Step<E>>) {
    && Exec(h, steps) == o.hub && ExclusiveRun(h, k, steps)
    && Window(o.hub, k) && !Holds(o.hub, k)
    && Handled(Reads(h, k, steps), o) && |o.torn| <= 1
  }

  lemma RoundFlow<E>(h: Hub<E>, k: string, id: int, event: Event<E>)
    requires Window(h, k) && Carries(h, id, k) && QuietScript(id, k, [event])
    ensures
      var r, steps := Round(h, id, event), RoundSteps(id, event);
      && Window(r.hub, k) && Carries(r.hub, id, k)
      && Exec(h, steps) == r.hub && ExclusiveRun(h, k, steps)
      && Reads(h, k, steps) == r.written + r.torn + r.skipped
      && |r.torn| <= (if r.left then 1 else 0)
  {
    match event
    case Meanwhile(step) =>
      assert [event][0] == event;
      OneStep(h, k, step);
      StepMoves(h, k, step);
      StillCarries(h, k, id, step);
    case Take(_, _) =>
      OneStep(h, k, DoReceive(id));
      StepMoves(h, k, DoReceive(id));
    case _ =>
  }

  lemma StillCarries<E>(h: Hub<E>, k: string, id: int, step: Step<E>)
    requires Window(h, k) && Carries(h, id, k) && step != DoUnsubscribe(id)
    ensures Carries(Next(h, step), id, k)
    ensures ReadBy(h, k, step) != [] ==> step == DoReceive(id)
  {
  }

  lemma {:induction false} LoopFlow<E>(h: Hub<E>, k: string, id: int, script: seq<Event<E>>)
    requires Window(h, k) && Carries(h, id, k) && QuietScript(id, k, script)
    ensures Flows(h, k, Loop(h, id, script), LoopSteps(h, id, script))
    decreases |script|
  {
    if script == [] {
      LeaveFlow(h, k, id);
    } else {
      var r := Round(h, id, script[0]);
      var first := RoundSteps(id, script[0]);
      assert QuietScript(id, k, [script[0]]) && QuietScript(id, k, script[1..]);
      RoundFlow(h, k, id, script[0]);
      if r.left {
        LeaveFlow(r.hub, k, id);
        FlowAppend(h, k, first, [DoUnsubscribe(id)]);
        ThenHandled(Reads(h, k, first), r, [], Idle(Unsubscribe(r.hub, id), true));
      } else {
        LoopFlow(r.hub, k, id, script[1..]);
        var rest := LoopSteps(r.hub, id, script[1..]);
        FlowAppend(h, k, first, rest);
        ThenHandled(Reads(h, k, first), r, Reads(r.hub, k, rest), Loop(r.hub, id, script[1..]));
      }
    }
  }

  lemma LeaveFlow<E>(h: Hub<E>, k: string, id: int)
    requires Window(h, k) && Carries(h, id, k)
    ensures
      var h' := Unsubscribe(h, id);
      && Exec(h, [DoUnsubscribe(id)]) == h' && ExclusiveRun(h, k, [DoUnsubscribe(id)])
      && Reads(h, k, [DoUnsubscribe(id)]) == [] && Handled([], Idle(h', true))
      && Window(h', k) && !Holds(h', k) && h'.retained[k] == Newest(h.subs[id].buf)
  {
    OneStep(h, k, DoUnsubscribe(id));
    StepMoves(h, k, DoUnsubscribe(id));
    SubsequenceRefl<E>([]);
    CarrierIs(h, k, id);
    var h' := Unsubscribe(h, id);
    forall other | other in h'.subs ensures h'.subs[other].filter != k {
      assert h.subs[other].filter == k ==> Carries(h, other, k);
    }
    assert BacklogOk(h, k);
    assert Unread(h, id) == h.subs[id].buf;
  }

  lemma ThenHandled<E>(first: seq<E>, a: Outcome<E>, rest: seq<E>, b: Outcome<E>)
    requires first == a.written + a.torn + a.skipped && Handled(rest, b)
    ensures Handled(first + rest, Then(a, b))
  {
    SubsequencePrefix(a.written, b.written, a.torn + a.skipped, rest);
    assert first + rest == a.written + (a.torn + a.skipped) + rest;
  }

  /** Rounds in which the handler leaves with its channel still open: the entry in hand, if any, is torn. */
  ghost predicate LeavesAt<E>(h: Hub<E>, id: int, event: Event<E>) {
    || event == Disconnect || event == Drain || event == Keepalive(false)
    || (event == Take(true, false) && id in h.subs && h.subs[id].buf != [])
  }

  /**
   Wherever its loop has got to, a handler that leaves by disconnect, drain or a failed keepalive
   write keeps every unread entry up to the cap, and one that leaves by a failed event write
   every one but that in hand: the backlog is the newest SUB_BUF_SIZE of them, all of them when
   no more were waiting. Nothing is written on the way out.
   */
  lemma LeavingKeepsUnread<E>(h: Hub<E>, k: string, id: int, event: Event<E>, script: seq<Event<E>>)
    requires Window(h, k) && Carries(h, id, k) && LeavesAt(h, id, event)
    ensures
      var o, waiting := Loop(h, id, [event] + script), h.subs[id].buf;
      var inHand := if event.Take? then 1 else 0;
      && k in o.hub.retained && o.hub.retained[k] == Newest(waiting[inHand..])
      && (|waiting| - inHand <= SUB_BUF_SIZE ==> o.hub.retained[k] == waiting[inHand..])
      && o.torn == waiting[..inHand] && o.written == o.skipped == []
  {
    RoundLeaves(h, k, id, event);
    LoopLeaves(h, id, event, script);
    LeaveFlow(Round(h, id, event).hub, k, id);
  }

  lemma RoundLeaves<E>(h: Hub<E>, k: string, id: int, event: Event<E>)
    requires Window(h, k) && Carries(h, id, k) && LeavesAt(h, id, event)
    ensures
      var r, waiting, inHand := Round(h, id, event), h.subs[id].buf, if event.Take? then 1 else 0;
      && r.left && Window(r.hub, k) && Carries(r.hub, id, k) && r.hub.subs[id].buf == waiting[inHand..]
      && r.torn == waiting[..inHand] && r.written == r.skipped == []
  {
    if event.Take? {
      StepMoves(h, k, DoReceive(id));
    }
  }

  lemma LoopLeaves<E>(h: Hub<E>, id: int, event: Event<E>, script: seq<Event<E>>)
    requires Round(h, id, event).left
    ensures var r := Round(h, id, event);
      Loop(h, id, [event] + script) == Outcome(Unsubscribe(r.hub, id), true, r.written, r.torn, r.skipped)
  {
    var r := Round(h, id, event);
    assert ([event] + script)[0] == event;
    assert r.written + [] == r.written && r.torn + [] == r.torn && r.skipped + [] == r.skipped;
  }

  /** Until it leaves the handler stays subscribed, so its channel is never found closed. */
  lemma NeverFindsClosed<E>(h: Hub<E>, k: string, id: int, event: Event<E>)
    requires Window(h, k) && Carries(h, id, k)
    ensures Round(h, id, event).left <==> LeavesAt(h, id, event)
  {
  }

  /** A request whose first write fails leaves every backlog as it found it. */
  lemma FailedFirstWriteLosesNothing<E>(h: Hub<E>, k: string, script: seq<Event<E>>)
    requires Inv(h) && !Holds(h, k)
    ensures var o := Serve(h, k, false, script); o.hub.retained == h.retained && o.written == o.torn == o.skipped == []
  {
    SubscribeThenLeave(h, k);
  }

  lemma ServeFlow<E>(h: Hub<E>, k: string, connected: bool, script: seq<Event<E>>)
    requires Window(h, k) && !Holds(h, k) && QuietScript(h.nextID + 1, k, script)
    ensures Flows(h, k, Serve(h, k, connected, script), ServeSteps(h, k, connected, script))
  {
    var h' := Subscribe(h, k);
    var id := h'.nextID;
    StepMoves(h, k, DoSubscribe(k));
    if connected {
      LoopFlow(h', k, id, script);
    } else {
      LeaveFlow(h', k, id);
    }
    AfterSubscribing(h, k, Serve(h, k, connected, script), if connected then LoopSteps(h', id, script) else [DoUnsubscribe(id)]);
  }

  lemma AfterSubscribing<E>(h: Hub<E>, k: string, o: Outcome<E>, steps: seq<Step<E>>)
    requires Exclusive(h, k, DoSubscribe(k)) && Flows(Subscribe(h, k), k, o, steps)
    ensures Flows(h, k, o, [DoSubscribe(k)] + steps)
  {
    OneStep(h, k, DoSubscribe(k));
    FlowAppend(h, k, [DoSubscribe(k)], steps);
    assert [] + Reads(Subscribe(h, k), k, steps) == Reads(Subscribe(h, k), k, steps);
  }

  // ---------- any number of requests ----------

  /** What happens around k: a hub step of somebody else, or a whole /logs request for k. */
  datatype Episode<+E> = Between(step: Step<E>) | Request(connected: bool, script: seq<Event<E>>)

  ghost function Play<E>(h: Hub<E>, k: string, episode: Episode<E>): Outcome<E> {
    match episode
    case Between(step) => Idle(Next(h, step), false)
    case Request(connected, script) => Serve(h, k, connected, script)
  }

  ghost function PlaySteps<E>(h: Hub<E>, k: string, episode: Episode<E>): seq<Step<E>> {
    match episode
    case Between(step) => [step]
    case Request(connected, script) => ServeSteps(h, k, connected, script)
  }

  ghost function PlayAll<E>(h: Hub<E>, k: string, episodes: seq<Episode<E>>): Outcome<E>
    decreases |episodes|
  {
    if episodes == [] then Idle(h, false)
    else
      var o := Play(h, k, episodes[0]);
      Then(o, PlayAll(o.hub, k, episodes[1..]))
  }

  ghost function AllSteps<E>(h: Hub<E>, k: string, episodes: seq<Episode<E>>): seq<Step<E>>
    decreases |episodes|
  {
    if episodes == [] then []
    else PlaySteps(h, k, episodes[0]) + AllSteps(Play(h, k, episodes[0]).hub, k, episodes[1..])
  }

  ghost predicate QuietEpisodes<E>(h: Hub<E>, k: string, episodes: seq<Episode<E>>)
    decreases |episodes|
  {
    episodes != [] ==>
      && (match episodes[0]
          case Between(step) => Quiet(k, step)
          case Request(_, script) => QuietScript(h.nextID + 1, k, script))
      && QuietEpisodes(Play(h, k, episodes[0]).hub, k, episodes[1..])
  }

  ghost function Requests<E>(episodes: seq<Episode<E>>): nat {
    if episodes == [] then 0 else (if episodes[0].Request? then 1 else 0) + Requests(episodes[1..])
  }

  lemma {:induction false} EpisodesFlow<E>(h: Hub<E>, k: string, episodes: seq<Episode<E>>)
    requires Window(h, k) && !Holds(h, k) && QuietEpisodes(h, k, episodes)
    ensures
      var o, steps := PlayAll(h, k, episodes), AllSteps(h, k, episodes);
      && Exec(h, steps) == o.hub && ExclusiveRun(h, k, steps)
      && Window(o.hub, k) && !Holds(o.hub, k)
      && Handled(Reads(h, k, steps), o) && |o.torn| <= Requests(episodes)
    decreases |episodes|
  {
    if episodes == [] {
      SubsequenceRefl<E>([]);
    } else {
      var first, o := PlaySteps(h, k, episodes[0]), Play(h, k, episodes[0]);
      EpisodeFlow(h, k, episodes[0]);
      EpisodesFlow(o.hub, k, episodes[1..]);
      var rest := AllSteps(o.hub, k, episodes[1..]);
      FlowAppend(h, k, first, rest);
      HandledThen(Reads(h, k, first), o, Reads(o.hub, k, rest), PlayAll(o.hub, k, episodes[1..]));
    }
  }

  lemma EpisodeFlow<E>(h: Hub<E>, k: string, episode: Episode<E>)
    requires Window(h, k) && !Holds(h, k) && QuietEpisodes(h, k, [episode])
    ensures
      var o, steps := Play(h, k, episode), PlaySteps(h, k, episode);
      && Exec(h, steps) == o.hub && ExclusiveRun(h, k, steps)
      && Window(o.hub, k) && !Holds(o.hub, k)
      && Handled(Reads(h, k, steps), o) && |o.torn| <= Requests([episode])
  {
    assert [episode][0] == episode;
    match episode
    case Request(connected, script) => ServeFlow(h, k, connected, script);
    case Between(step) =>
      OneStep(h, k, step);
      StepMoves(h, k, step);
      StaysFree(h, k, step);
      SubsequenceRefl<E>([]);
  }

  /** Nobody subscribes to k behind the clients' backs. */
  lemma StaysFree<E>(h: Hub<E>, k: string, step: Step<E>)
    requires !Holds(h, k) && step != DoSubscribe(k)
    ensures !Holds(Next(h, step), k) && ReadBy(h, k, step) == []
  {
  }

  /** Two handled stretches in a row. */
  lemma HandledThen<E>(first: seq<E>, a: Outcome<E>, rest: seq<E>, b: Outcome<E>)
    requires Handled(first, a) && Handled(rest, b)
    ensures Handled(first + rest, Then(a, b))
  {
    SubsequenceConcat(a.written, first, b.written, rest);
  }

  lemma SubsequenceConcat<E>(xs: seq<E>, ys: seq<E>, xs': seq<E>, ys': seq<E>)
    requires Subsequence(xs, ys) && Subsequence(xs', ys')
    ensures Subsequence(xs + xs', ys + ys')
  {
    var f :| Embeds(f, xs, ys);
    var g :| Embeds(g, xs', ys');
    var n := |f|;
    var both := seq(n + |g|, i requires 0 <= i < n + |g| => if i < n then f[i] else |ys| + g[i - n]);
    assert Embeds(both, xs + xs', ys + ys');
  }

  lemma SubsequenceTrans<E>(xs: seq<E>, ys: seq<E>, zs: seq<E>)
    requires Subsequence(xs, ys) && Subsequence(ys, zs)
    ensures Subsequence(xs, zs)
  {
    var f :| Embeds(f, xs, ys);
    var g :| Embeds(g, ys, zs);
    assert Embeds(seq(|f|, i requires 0 <= i < |f| => g[f[i]]), xs, zs);
  }

  /**
   The lines written by all requests, then what is still in the backlog, are an in-order
   subsequence of the entries published for k; what is missing was dropped for lack of room,
   skipped as not marshallable, or torn by a failed event write, at most one per request.
   */
  lemma SessionsConserve<E>(h: Hub<E>, k: string, episodes: seq<Episode<E>>)
    requires Window(h, k) && !Holds(h, k) && QuietEpisodes(h, k, episodes)
    ensures
      var o, steps := PlayAll(h, k, episodes), AllSteps(h, k, episodes);
      && k in o.hub.retained
      && Subsequence(o.written + o.hub.retained[k], h.retained[k] + Published(h, k, steps))
      && multiset(h.retained[k] + Published(h, k, steps))
           == multiset(o.written + o.hub.retained[k]) + multiset(Lost(h, k, steps)) + multiset(o.torn) + multiset(o.skipped)
      && |o.torn| <= Requests(episodes)
  {
    var o, steps := PlayAll(h, k, episodes), AllSteps(h, k, episodes);
    EpisodesFlow(h, k, episodes);
    WindowConservation(h, k, steps);
    var taken := Reads(h, k, steps);
    SubsequenceRefl(o.hub.retained[k]);
    SubsequenceConcat(o.written, taken, o.hub.retained[k], o.hub.retained[k]);
    SubsequenceTrans(o.written + o.hub.retained[k], taken + o.hub.retained[k], h.retained[k] + Published(h, k, steps));
  }
}
