/**
 Conservation and order for one retained key while at most one subscriber carries it:
 what its subscribers read, followed by what is still pending, is the published sequence
 with exactly the dropped entries taken out.
 */
module HubFlow {
  import opened Options
  import opened HubSpec
  import opened HubInvariants

  // ---------- subsequences ----------

  /** f sends each position of xs to a position of ys with the same element, in order. */
  ghost predicate Embeds<E>(f: seq<int>, xs: seq<E>, ys: seq<E>) {
    && |f| == |xs|
    && (forall i, j :: 0 <= i < j < |f| ==> f[i] < f[j])
    && (forall i :: 0 <= i < |f| ==> 0 <= f[i] < |ys| && xs[i] == ys[f[i]])
  }

  /** xs is ys with some occurrences removed: order kept, no occurrence used twice. */
  ghost predicate Subsequence<E>(xs: seq<E>, ys: seq<E>) {
    exists f :: Embeds(f, xs, ys)
  }

  lemma SubsequenceRefl<E>(xs: seq<E>)
    ensures Subsequence(xs, xs)
  {
    assert Embeds(seq(|xs|, i => i), xs, xs);
  }

  /** A common prefix may be added, and anything inserted after it in the larger sequence. */
  lemma SubsequencePrefix<E>(a: seq<E>, xs: seq<E>, b: seq<E>, ys: seq<E>)
    requires Subsequence(xs, ys)
    ensures Subsequence(a + xs, a + b + ys)
  {
    var f :| Embeds(f, xs, ys);
    var n := |a|;
    var g := seq(n + |f|, i requires 0 <= i < n + |f| => if i < n then i else n + |b| + f[i - n]);
    assert Embeds(g, a + xs, a + b + ys);
  }

  /** The larger sequence may grow anywhere. */
  lemma SubsequenceWiden<E>(xs: seq<E>, a: seq<E>, c: seq<E>, b: seq<E>)
    requires Subsequence(xs, a + b)
    ensures Subsequence(xs, a + c + b)
  {
    var f :| Embeds(f, xs, a + b);
    var g := seq(|f|, i requires 0 <= i < |f| => if f[i] < |a| then f[i] else f[i] + |c|);
    assert Embeds(g, xs, a + c + b);
  }

  // ---------- one key's pipeline ----------

  /** At most one subscriber carries k. */
  ghost predicate Solo<E>(h: Hub<E>, k: string) {
    forall a, b :: Carries(h, a, k) && Carries(h, b, k) ==> a == b
  }

  ghost function Carrier<E>(h: Hub<E>, k: string): (id: int)
    requires Holds(h, k)
    ensures Carries(h, id, k)
  {
    var id :| id in h.subs && h.subs[id].filter == k; id
  }

  /** Entries of k not yet read: in its subscriber's channel, else in its backlog. */
  ghost function Pending<E>(h: Hub<E>, k: string): seq<E> {
    if Holds(h, k) then h.subs[Carrier(h, k)].buf else Held(h, k)
  }

  /** The regime of the theorems: k is retained and nobody shares it. */
  ghost predicate Window<E>(h: Hub<E>, k: string) {
    Inv(h) && k in h.retained && Solo(h, k)
  }

  /** A step that leaves k retained and unshared. */
  ghost predicate Exclusive<E>(h: Hub<E>, k: string, step: Step<E>) {
    && step != DoRelease(k)
    && (step == DoSubscribe(k) ==> !Holds(h, k))
  }

  ghost function PublishedBy<E>(h: Hub<E>, k: string, step: Step<E>): seq<E> {
    if step.DoPublish? && Key(h.keyOf, step.e) == k then [step.e] else []
  }

  ghost function ReadBy<E>(h: Hub<E>, k: string, step: Step<E>): seq<E> {
    if step.DoReceive? && Carries(h, step.id, k) && Receive(h, step.id).Got? then [Receive(h, step.id).entry] else []
  }

  /** Entries of k a step drops: refused by its subscriber's full channel, evicted, or trimmed. */
  ghost function LostBy<E>(h: Hub<E>, k: string, step: Step<E>): seq<E> {
    match step
    case DoPublish(e) =>
      if Key(h.keyOf, e) != k then []
      else if Holds(h, k) && Carrier(h, k) in Refused(h, e) then [e]
      else Evicted(h, e)
    case DoUnsubscribe(id) => if Carries(h, id, k) then Trimmed(h, id) else []
    case _ => []
  }

  /** How one step moves the pipeline: either it drops a refused entry, or whatever it drops is the oldest pending. */
  ghost predicate Moves<E>(p: seq<E>, published: seq<E>, read: seq<E>, lost: seq<E>, p': seq<E>) {
    || p + published == read + lost + p'
    || (p' == p && lost == published && read == [])
  }

  lemma CarrierIs<E>(h: Hub<E>, k: string, id: int)
    requires Solo(h, k) && Carries(h, id, k)
    ensures Holds(h, k) && Carrier(h, k) == id && Pending(h, k) == h.subs[id].buf
  {
  }

  lemma StepMoves<E>(h: Hub<E>, k: string, step: Step<E>)
    requires Window(h, k) && Exclusive(h, k, step)
    ensures Window(Next(h, step), k)
    ensures Moves(Pending(h, k), PublishedBy(h, k, step), ReadBy(h, k, step), LostBy(h, k, step), Pending(Next(h, step), k))
  {
    NextKeepsInv(h, step);
    assert BacklogOk(h, k);
    match step
    case DoRetain(_) => SamePipeline(h, Next(h, step), k);
    case DoRelease(_) => SamePipeline(h, Next(h, step), k);
    case DoSubscribe(f) => SubscribeMoves(h, k, f);
    case DoUnsubscribe(id) => UnsubscribeMoves(h, k, id);
    case DoPublish(e) => PublishMoves(h, k, e);
    case DoReceive(id) => ReceiveMoves(h, k, id);
  }

  /** Steps that touch neither k's backlog nor its subscriber. */
  lemma SamePipeline<E>(h: Hub<E>, h': Hub<E>, k: string)
    requires Window(h, k) && k in h'.retained && h'.retained[k] == h.retained[k]
    requires forall id :: Carries(h, id, k) <==> Carries(h', id, k)
    requires forall id :: Carries(h, id, k) ==> id in h'.subs && h'.subs[id] == h.subs[id]
    ensures Solo(h', k) && Pending(h', k) == Pending(h, k)
  {
  }

  lemma SubscribeMoves<E>(h: Hub<E>, k: string, f: string)
    requires Window(h, k) && Exclusive(h, k, DoSubscribe(f))
    ensures Solo(Subscribe(h, f), k) && Pending(Subscribe(h, f), k) == Pending(h, k)
  {
    var h' := Subscribe(h, f);
    if f == k {
      forall id | Carries(h', id, k) ensures id == h'.nextID {
        assert id != h'.nextID ==> Carries(h, id, k);
      }
      CarrierIs(h', k, h'.nextID);
    } else {
      forall id | Carries(h, id, k) ensures id != h'.nextID {
        assert ChannelOk(h, id, h.subs[id]);
      }
      SamePipeline(h, h', k);
    }
  }

  lemma UnsubscribeMoves<E>(h: Hub<E>, k: string, id: int)
    requires Window(h, k)
    ensures Solo(Unsubscribe(h, id), k)
    ensures Pending(h, k) == LostBy(h, k, DoUnsubscribe(id)) + Pending(Unsubscribe(h, id), k)
  {
    var h' := Unsubscribe(h, id);
    if Carries(h, id, k) {
      CarrierIs(h, k, id);
      assert BacklogOk(h, k);
      forall other | other in h'.subs ensures h'.subs[other].filter != k {
        assert h.subs[other].filter == k ==> Carries(h, other, k);
      }
      assert !Holds(h', k);
      assert Requeues(h, id);
      assert Unread(h, id) == h.subs[id].buf;
    } else {
      SamePipeline(h, h', k);
    }
  }

  lemma PublishMoves<E>(h: Hub<E>, k: string, e: E)
    requires Window(h, k)
    ensures Solo(Publish(h, e), k)
    ensures Moves(Pending(h, k), PublishedBy(h, k, DoPublish(e)), [], LostBy(h, k, DoPublish(e)), Pending(Publish(h, e), k))
  {
    var h' := Publish(h, e);
    assert BacklogOk(h, k);
    assert forall id :: Carries(h, id, k) <==> Carries(h', id, k);
    if Holds(h, k) {
      var id := Carrier(h, k);
      CarrierIs(h, k, id);
      CarrierIs(h', k, id);
    } else {
      assert !Holds(h', k);
    }
  }

  lemma ReceiveMoves<E>(h: Hub<E>, k: string, id: int)
    requires Window(h, k)
    ensures Solo(AfterReceive(h, id), k)
    ensures Pending(h, k) == ReadBy(h, k, DoReceive(id)) + Pending(AfterReceive(h, id), k)
  {
    var h' := AfterReceive(h, id);
    assert forall i :: Carries(h, i, k) <==> Carries(h', i, k);
    if Carries(h, id, k) {
      CarrierIs(h, k, id);
      CarrierIs(h', k, id);
    } else {
      SamePipeline(h, h', k);
    }
  }

  // ---------- whole runs ----------

  ghost predicate ExclusiveRun<E>(h: Hub<E>, k: string, steps: seq<Step<E>>)
    decreases |steps|
  {
    steps != [] ==> Exclusive(h, k, steps[0]) && ExclusiveRun(Next(h, steps[0]), k, steps[1..])
  }

  ghost function Published<E>(h: Hub<E>, k: string, steps: seq<Step<E>>): seq<E>
    decreases |steps|
  {
    if steps == [] then []
    else PublishedBy(h, k, steps[0]) + Published(Next(h, steps[0]), k, steps[1..])
  }

  ghost function Reads<E>(h: Hub<E>, k: string, steps: seq<Step<E>>): seq<E>
    decreases |steps|
  {
    if steps == [] then []
    else ReadBy(h, k, steps[0]) + Reads(Next(h, steps[0]), k, steps[1..])
  }

  ghost function Lost<E>(h: Hub<E>, k: string, steps: seq<Step<E>>): seq<E>
    decreases |steps|
  {
    if steps == [] then []
    else LostBy(h, k, steps[0]) + Lost(Next(h, steps[0]), k, steps[1..])
  }

  /** What two runs in a row read and published. */
  lemma {:induction false} FlowAppend<E>(h: Hub<E>, k: string, a: seq<Step<E>>, b: seq<Step<E>>)
    ensures Exec(h, a + b) == Exec(Exec(h, a), b)
    ensures Reads(h, k, a + b) == Reads(h, k, a) + Reads(Exec(h, a), k, b)
    ensures Published(h, k, a + b) == Published(h, k, a) + Published(Exec(h, a), k, b)
    ensures ExclusiveRun(h, k, a + b) <==> ExclusiveRun(h, k, a) && ExclusiveRun(Exec(h, a), k, b)
    decreases |a|
  {
    if a == [] {
      assert a + b == b;
    } else {
      assert (a + b)[0] == a[0] && (a + b)[1..] == a[1..] + b;
      FlowAppend(Next(h, a[0]), k, a[1..], b);
    }
  }

  lemma OneStep<E>(h: Hub<E>, k: string, step: Step<E>)
    ensures Exec(h, [step]) == Next(h, step)
    ensures Reads(h, k, [step]) == ReadBy(h, k, step) && Published(h, k, [step]) == PublishedBy(h, k, step)
    ensures ExclusiveRun(h, k, [step]) <==> Exclusive(h, k, step)
  {
  }

  /**
   Conservation and order. Over any run in which k stays retained and unshared, the entries
   its successive subscribers read, followed by those still pending, are an in-order
   subsequence of the entries pending at the start followed by those published for k; what
   is missing is exactly what was dropped.
   */
  lemma {:induction false} WindowConservation<E>(h: Hub<E>, k: string, steps: seq<Step<E>>)
    requires Window(h, k) && ExclusiveRun(h, k, steps)
    ensures Window(Exec(h, steps), k)
    ensures Subsequence(Reads(h, k, steps) + Pending(Exec(h, steps), k), Pending(h, k) + Published(h, k, steps))
    ensures multiset(Pending(h, k) + Published(h, k, steps))
         == multiset(Reads(h, k, steps) + Pending(Exec(h, steps), k)) + multiset(Lost(h, k, steps))
    decreases |steps|
  {
    if steps == [] {
      assert Pending(h, k) + [] == Pending(h, k) == [] + Pending(h, k);
      SubsequenceRefl(Pending(h, k));
    } else {
      var step, rest := steps[0], steps[1..];
      var h' := Next(h, step);
      StepMoves(h, k, step);
      WindowConservation(h', k, rest);
      var (p, pub, read, lost, p') :=
        (Pending(h, k), PublishedBy(h, k, step), ReadBy(h, k, step), LostBy(h, k, step), Pending(h', k));
      MoveThenRun(p, pub, read, lost, p', Published(h', k, rest), Reads(h', k, rest), Lost(h', k, rest), Pending(Exec(h', rest), k));
    }
  }

  /** One move in front of a run that conserves keeps the run conserving. */
  lemma MoveThenRun<E>(p: seq<E>, pub: seq<E>, read: seq<E>, lost: seq<E>, p': seq<E>,
                       pubs: seq<E>, taken: seq<E>, losses: seq<E>, end: seq<E>)
    requires Moves(p, pub, read, lost, p')
    requires Subsequence(taken + end, p' + pubs)
    requires multiset(p' + pubs) == multiset(taken + end) + multiset(losses)
    ensures Subsequence(read + taken + end, p + (pub + pubs))
    ensures multiset(p + (pub + pubs)) == multiset(read + taken + end) + multiset(lost + losses)
  {
    assert p + (pub + pubs) == (p + pub) + pubs;
    assert (read + taken) + end == read + (taken + end);
    if p + pub == read + lost + p' {
      assert (p + pub) + pubs == read + lost + (p' + pubs);
      SubsequencePrefix(read, taken + end, lost, p' + pubs);
      MultisetAround(read, lost, p' + pubs);
      MultisetAround(lost, losses, []);
    } else {
      assert read + (taken + end) == taken + end;
      assert (p + pub) + pubs == p' + pub + pubs;
      SubsequenceWiden(taken + end, p', pub, pubs);
      MultisetAround(p', pub, pubs);
      MultisetAround(lost, losses, []);
    }
  }

  lemma MultisetAround<E>(a: seq<E>, b: seq<E>, c: seq<E>)
    ensures multiset(a + b + c) == multiset(a + c) + multiset(b)
    ensures multiset(a + b) == multiset(a) + multiset(b) && multiset(a + c) == multiset(a) + multiset(c)
  {
  }

  /** Any reachable state in which k is retained and nobody carries it opens such a window. */
  lemma WindowOpens<E>(keyOf: Option<E -> string>, past: seq<Step<E>>, k: string)
    requires var h := Exec(NewHub(keyOf), past); k in h.retained && !Holds(h, k)
    ensures var h := Exec(NewHub(keyOf), past); Window(h, k) && Pending(h, k) == h.retained[k]
  {
    NewHubInv(keyOf);
    RunKeepsInv(NewHub(keyOf), past);
  }

  // ---------- when nothing is lost ----------

  /** Where k's next entry goes has room for it. */
  ghost function Room<E>(h: Hub<E>, k: string): nat {
    if Holds(h, k) then h.subs[Carrier(h, k)].cap else SUB_BUF_SIZE
  }

  /** The step stays within the bounds of k's queue. */
  ghost predicate Fits<E>(h: Hub<E>, k: string, step: Step<E>) {
    match step
    case DoPublish(e) => Key(h.keyOf, e) == k ==> |Pending(h, k)| < Room(h, k)
    case DoUnsubscribe(id) => Carries(h, id, k) ==> |Pending(h, k)| <= SUB_BUF_SIZE
    case _ => true
  }

  ghost predicate FitsRun<E>(h: Hub<E>, k: string, steps: seq<Step<E>>)
    decreases |steps|
  {
    steps != [] ==> Fits(h, k, steps[0]) && FitsRun(Next(h, steps[0]), k, steps[1..])
  }

  lemma StepLossless<E>(h: Hub<E>, k: string, step: Step<E>)
    requires Window(h, k)
    ensures LostBy(h, k, step) == [] <==> Fits(h, k, step)
  {
    assert BacklogOk(h, k);
    if step.DoUnsubscribe? && Carries(h, step.id, k) {
      CarrierIs(h, k, step.id);
      UnsubscribeMoves(h, k, step.id);
      assert Requeues(h, step.id) by {
        forall other | other in h.subs && other != step.id ensures h.subs[other].filter != k {
          assert h.subs[other].filter == k ==> Carries(h, other, k);
        }
      }
    } else if Holds(h, k) {
      assert ChannelOk(h, Carrier(h, k), h.subs[Carrier(h, k)]);
    }
  }

  /** A run loses nothing of k exactly when every step of it fits; then nothing is missing. */
  lemma {:induction false} LosslessIff<E>(h: Hub<E>, k: string, steps: seq<Step<E>>)
    requires Window(h, k) && ExclusiveRun(h, k, steps)
    ensures Lost(h, k, steps) == [] <==> FitsRun(h, k, steps)
    ensures FitsRun(h, k, steps) ==>
      Reads(h, k, steps) + Pending(Exec(h, steps), k) == Pending(h, k) + Published(h, k, steps)
    decreases |steps|
  {
    if steps != [] {
      StepLossless(h, k, steps[0]);
      StepMoves(h, k, steps[0]);
      LosslessIff(Next(h, steps[0]), k, steps[1..]);
      if FitsRun(h, k, steps) {
        FittingStep(h, k, steps[0], steps[1..]);
      }
    }
  }

  lemma FittingStep<E>(h: Hub<E>, k: string, step: Step<E>, rest: seq<Step<E>>)
    requires Window(h, k) && Exclusive(h, k, step) && Fits(h, k, step)
    requires var h' := Next(h, step);
      Reads(h', k, rest) + Pending(Exec(h', rest), k) == Pending(h', k) + Published(h', k, rest)
    ensures var h' := Next(h, step);
      (ReadBy(h, k, step) + Reads(h', k, rest)) + Pending(Exec(h', rest), k)
        == Pending(h, k) + (PublishedBy(h, k, step) + Published(h', k, rest))
  {
    var h' := Next(h, step);
    StepLossless(h, k, step);
    StepMoves(h, k, step);
    assert Pending(h, k) + PublishedBy(h, k, step) == ReadBy(h, k, step) + Pending(h', k);
    Regroup(Pending(h, k), PublishedBy(h, k, step), ReadBy(h, k, step), Pending(h', k),
            Published(h', k, rest), Reads(h', k, rest), Pending(Exec(h', rest), k));
  }

  lemma Regroup<E>(p: seq<E>, pub: seq<E>, read: seq<E>, p': seq<E>, pubs: seq<E>, taken: seq<E>, end: seq<E>)
    requires p + pub == read + p' && taken + end == p' + pubs
    ensures (read + taken) + end == p + (pub + pubs)
  {
    assert (read + taken) + end == read + (taken + end);
    assert read + (p' + pubs) == (read + p') + pubs;
    assert (p + pub) + pubs == p + (pub + pubs);
  }

  /** At most SUB_BUF_SIZE entries are ever pending: no publish for k finds that many waiting. */
  ghost predicate NeverOver<E>(h: Hub<E>, k: string, steps: seq<Step<E>>)
    decreases |steps|
  {
    steps != [] ==>
      && (PublishedBy(h, k, steps[0]) != [] ==> |Pending(h, k)| < SUB_BUF_SIZE)
      && NeverOver(Next(h, steps[0]), k, steps[1..])
  }

  /** The lossless window: reads, then pending, are exactly what was published. */
  lemma {:induction false} LosslessWindow<E>(h: Hub<E>, k: string, steps: seq<Step<E>>)
    requires Window(h, k) && ExclusiveRun(h, k, steps)
    requires |Pending(h, k)| <= SUB_BUF_SIZE && NeverOver(h, k, steps)
    ensures Lost(h, k, steps) == []
    ensures Reads(h, k, steps) + Pending(Exec(h, steps), k) == Pending(h, k) + Published(h, k, steps)
  {
    NeverOverFits(h, k, steps);
    LosslessIff(h, k, steps);
  }

  lemma {:induction false} NeverOverFits<E>(h: Hub<E>, k: string, steps: seq<Step<E>>)
    requires Window(h, k) && ExclusiveRun(h, k, steps)
    requires |Pending(h, k)| <= SUB_BUF_SIZE && NeverOver(h, k, steps)
    ensures FitsRun(h, k, steps)
    decreases |steps|
  {
    if steps != [] {
      if Holds(h, k) {
        assert ChannelOk(h, Carrier(h, k), h.subs[Carrier(h, k)]);
      }
      StepMoves(h, k, steps[0]);
      var p' := Pending(Next(h, steps[0]), k);
      assert |Pending(h, k) + PublishedBy(h, k, steps[0])| <= SUB_BUF_SIZE;
      assert |p'| <= SUB_BUF_SIZE;
      NeverOverFits(Next(h, steps[0]), k, steps[1..]);
    }
  }

  /** Connecting and leaving without reading anything puts the backlog back as it was. */
  lemma SubscribeThenLeave<E>(h: Hub<E>, k: string)
    requires Inv(h) && !Holds(h, k)
    ensures var h' := Subscribe(h, k); Unsubscribe(h', h'.nextID).retained == h.retained
  {
    var h' := Subscribe(h, k);
    var id := h'.nextID;
    if k in h.retained {
      assert BacklogOk(h, k);
      assert !Holds(h'.(subs := h'.subs - {id}), k);
      assert Unread(h', id) == h.retained[k];
    }
  }

  // ---------- the observed drop count ----------

  /** Refusals of e other than by k's subscriber of an entry of k. */
  ghost function OtherRefused<E>(h: Hub<E>, k: string, e: E): set<int> {
    set id | id in Refused(h, e) && !(Key(h.keyOf, e) == k && Carries(h, id, k))
  }

  /** Observed drops that do not belong to k's pipeline. */
  ghost function OtherDropsBy<E>(h: Hub<E>, k: string, step: Step<E>): nat {
    match step
    case DoPublish(e) =>
      |OtherRefused(h, k, e)| + (if Key(h.keyOf, e) == k then 0 else |Evicted(h, e)|)
    case DoUnsubscribe(id) => if Carries(h, id, k) then 0 else |Trimmed(h, id)|
    case _ => 0
  }

  ghost function OtherDrops<E>(h: Hub<E>, k: string, steps: seq<Step<E>>): nat
    decreases |steps|
  {
    if steps == [] then 0 else OtherDropsBy(h, k, steps[0]) + OtherDrops(Next(h, steps[0]), k, steps[1..])
  }

  /** How often a whole run notifies the DropObserver. */
  ghost function Notified<E>(h: Hub<E>, steps: seq<Step<E>>): nat
    decreases |steps|
  {
    if steps == [] then 0 else Observed(h, steps[0]) + Notified(Next(h, steps[0]), steps[1..])
  }

  lemma DropsChargedBy<E>(h: Hub<E>, k: string, step: Step<E>)
    requires Window(h, k)
    ensures Observed(h, step) == |LostBy(h, k, step)| + OtherDropsBy(h, k, step)
  {
    if step.DoPublish? {
      RefusedSplit(h, k, step.e);
      assert BacklogOk(h, k);
    }
  }

  lemma RefusedSplit<E>(h: Hub<E>, k: string, e: E)
    requires Solo(h, k)
    ensures |Refused(h, e)| == |OtherRefused(h, k, e)|
      + if Key(h.keyOf, e) == k && Holds(h, k) && Carrier(h, k) in Refused(h, e) then 1 else 0
  {
    if Key(h.keyOf, e) == k && Holds(h, k) && Carrier(h, k) in Refused(h, e) {
      assert Refused(h, e) == OtherRefused(h, k, e) + {Carrier(h, k)};
    } else {
      assert forall id :: id in Refused(h, e) && Carries(h, id, k) ==> Holds(h, k) && id == Carrier(h, k);
      assert Refused(h, e) == OtherRefused(h, k, e);
    }
  }

  /** Every notification of a run is a drop charged to k or a drop of another pipeline, counted once. */
  lemma {:induction false} DropsCharged<E>(h: Hub<E>, k: string, steps: seq<Step<E>>)
    requires Window(h, k) && ExclusiveRun(h, k, steps)
    ensures Notified(h, steps) == |Lost(h, k, steps)| + OtherDrops(h, k, steps)
    decreases |steps|
  {
    if steps != [] {
      DropsChargedBy(h, k, steps[0]);
      StepMoves(h, k, steps[0]);
      DropsCharged(Next(h, steps[0]), k, steps[1..]);
    }
  }

  /** The window matters: two subscribers on one key are each handed the same entry. */
  lemma OverlapReadsTwice<E>(keyOf: Option<E -> string>, k: string, e: E)
    requires keyOf.Some? && keyOf.value(e) == k && k != ""
    ensures
      var shared := Subscribe(Subscribe(Retain(NewHub(keyOf), k), k), k);
      var h := Publish(shared, e);
      && Receive(h, 1) == Got(e) && Receive(AfterReceive(h, 1), 2) == Got(e)
      && !Solo(shared, k)
      && Unsubscribe(h, 1).retained[k] == [] && Unsubscribe(h, 1).gone[1].buf == [e]
      && Observed(h, DoUnsubscribe(1)) == 0
  {
    var shared := Subscribe(Subscribe(Retain(NewHub(keyOf), k), k), k);
    var h := Publish(shared, e);
    assert Carries(shared, 1, k) && Carries(shared, 2, k);
    assert Holds(h.(subs := h.subs - {1}), k) by {
      assert 2 in (h.subs - {1}) && h.subs[2].filter == k;
    }
  }
}
