/**
 The log fan-out hub as a value, and each of its operations as one atomic step. Every hub
 method holds one mutex for its whole body; a receive takes none. A run is a sequence of these
 steps interleaved with the readers' receives. Receives inside a method are the subject of
 HubConcurrency: they change nothing, unless a reader overtakes the drain of an Unsubscribe of
 its own channel, which the handler never does.
 */
module HubSpec {
  import opened Options

  const SUB_BUF_SIZE: nat := 256

  /** A registered subscriber: its filter and its buffered channel (capacity and unread entries). */
  datatype Sub<E> = Sub(filter: string, cap: nat, buf: seq<E>)

  /**
   The hub. `gone` is not a field of the source: it remembers the closed channels of departed
   subscribers, whose unread entries a reader that still holds the channel can receive.
   */
  datatype Hub<!E> = Hub(
    keyOf: Option<E -> string>,
    subs: map<int, Sub<E>>,
    nextID: int,
    retained: map<string, seq<E>>,
    gone: map<int, Sub<E>>)

  ghost function NewHub<E>(keyOf: Option<E -> string>): Hub<E> {
    Hub(keyOf, map[], 0, map[], map[])
  }

  /** The filter key of an entry; a hub without keyOf gives every entry the empty key. */
  ghost function Key<E>(keyOf: Option<E -> string>, e: E): string {
    if keyOf.Some? then keyOf.value(e) else ""
  }

  /** Subscriber id carries exactly this filter. */
  ghost predicate Carries<E>(h: Hub<E>, id: int, filter: string) {
    id in h.subs && h.subs[id].filter == filter
  }

  ghost predicate Holds<E>(h: Hub<E>, filter: string) {
    exists id :: id in h.subs && h.subs[id].filter == filter
  }

  /** Whether Publish offers an entry with this key to the subscriber. */
  ghost predicate Matches<E>(keyOf: Option<E -> string>, s: Sub<E>, key: string) {
    s.filter == "" || keyOf.None? || s.filter == key
  }

  ghost predicate Full<E>(s: Sub<E>) { |s.buf| >= s.cap }

  ghost function Push<E>(s: Sub<E>, e: E): Sub<E> { s.(buf := s.buf + [e]) }

  /** The newest SUB_BUF_SIZE entries of a sequence, and the older ones in front of them. */
  ghost function Newest<E>(s: seq<E>): seq<E> {
    if |s| > SUB_BUF_SIZE then s[|s| - SUB_BUF_SIZE..] else s
  }

  ghost function Oldest<E>(s: seq<E>): seq<E> {
    if |s| > SUB_BUF_SIZE then s[..|s| - SUB_BUF_SIZE] else []
  }

  // ---------- operations ----------

  ghost function Retain<E>(h: Hub<E>, key: string): Hub<E> {
    if key == "" || h.keyOf.None? || key in h.retained then h
    else h.(retained := h.retained[key := []])
  }

  ghost function Release<E>(h: Hub<E>, key: string): Hub<E> {
    h.(retained := h.retained - {key})
  }

  ghost function Held<E>(h: Hub<E>, filter: string): seq<E> {
    if filter in h.retained then h.retained[filter] else []
  }

  /** The new subscriber's id is the hub's nextID afterwards. */
  ghost function Subscribe<E>(h: Hub<E>, filter: string): Hub<E> {
    var held := Held(h, filter);
    h.(subs := h.subs[h.nextID + 1 := Sub(filter, SUB_BUF_SIZE + |held|, held)],
       nextID := h.nextID + 1,
       retained := if filter in h.retained then h.retained[filter := []] else h.retained)
  }

  /** Unread entries of a departing subscriber go back to the backlog, or stay in its closed channel. */
  ghost predicate Requeues<E>(h: Hub<E>, id: int)
    requires id in h.subs
  {
    var f := h.subs[id].filter;
    f in h.retained && !Holds(h.(subs := h.subs - {id}), f)
  }

  ghost function Unread<E>(h: Hub<E>, id: int): seq<E>
    requires id in h.subs
  {
    h.subs[id].buf + Held(h, h.subs[id].filter)
  }

  ghost function Unsubscribe<E>(h: Hub<E>, id: int): Hub<E> {
    if id !in h.subs then h
    else
      var s := h.subs[id];
      if Requeues(h, id) then
        h.(subs := h.subs - {id},
           retained := h.retained[s.filter := Newest(Unread(h, id))],
           gone := h.gone[id := s.(buf := [])])
      else
        h.(subs := h.subs - {id}, gone := h.gone[id := s])
  }

  /** Entries a departing subscriber's requeue drops. */
  ghost function Trimmed<E>(h: Hub<E>, id: int): seq<E> {
    if id in h.subs && Requeues(h, id) then Oldest(Unread(h, id)) else []
  }

  ghost predicate Attached<E>(h: Hub<E>, key: string) { key != "" && Holds(h, key) }

  /** The published entry joins its key's backlog. */
  ghost predicate ToBacklog<E>(h: Hub<E>, e: E) {
    !Attached(h, Key(h.keyOf, e)) && Key(h.keyOf, e) in h.retained
  }

  ghost function Offer<E>(keyOf: Option<E -> string>, s: Sub<E>, e: E): Sub<E> {
    if Matches(keyOf, s, Key(keyOf, e)) && !Full(s) then Push(s, e) else s
  }

  /** Backlog after appending e: a full backlog loses its oldest entry first. */
  ghost function Appended<E>(backlog: seq<E>, e: E): seq<E> {
    (if |backlog| >= SUB_BUF_SIZE then backlog[1..] else backlog) + [e]
  }

  ghost function Publish<E>(h: Hub<E>, e: E): Hub<E> {
    var k := Key(h.keyOf, e);
    h.(subs := map id | id in h.subs :: Offer(h.keyOf, h.subs[id], e),
       retained := if ToBacklog(h, e) then h.retained[k := Appended(h.retained[k], e)] else h.retained)
  }

  /** Subscribers whose full channel refuses e. */
  ghost function Refused<E>(h: Hub<E>, e: E): set<int> {
    set id | id in h.subs && Matches(h.keyOf, h.subs[id], Key(h.keyOf, e)) && Full(h.subs[id])
  }

  /** Entries the backlog loses to make room for e. */
  ghost function Evicted<E>(h: Hub<E>, e: E): seq<E> {
    if ToBacklog(h, e) && |h.retained[Key(h.keyOf, e)]| >= SUB_BUF_SIZE then [h.retained[Key(h.keyOf, e)][0]] else []
  }

  /** What a receive finds: an entry, nothing yet (the reader would wait), or a closed and drained channel. */
  datatype Received<+E> = Got(entry: E) | Nothing | Closed

  ghost function Receive<E>(h: Hub<E>, id: int): Received<E> {
    if id in h.subs then (if h.subs[id].buf != [] then Got(h.subs[id].buf[0]) else Nothing)
    else if id in h.gone && h.gone[id].buf != [] then Got(h.gone[id].buf[0])
    else Closed
  }

  ghost function AfterReceive<E>(h: Hub<E>, id: int): Hub<E> {
    if id in h.subs && h.subs[id].buf != [] then
      h.(subs := h.subs[id := h.subs[id].(buf := h.subs[id].buf[1..])])
    else if id !in h.subs && id in h.gone && h.gone[id].buf != [] then
      h.(gone := h.gone[id := h.gone[id].(buf := h.gone[id].buf[1..])])
    else h
  }

  // ---------- runs ----------

  datatype Step<+E> =
    | DoRetain(key: string)
    | DoRelease(key: string)
    | DoSubscribe(filter: string)
    | DoUnsubscribe(id: int)
    | DoPublish(e: E)
    | DoReceive(id: int)

  ghost function Next<E>(h: Hub<E>, step: Step<E>): Hub<E> {
    match step
    case DoRetain(k) => Retain(h, k)
    case DoRelease(k) => Release(h, k)
    case DoSubscribe(f) => Subscribe(h, f)
    case DoUnsubscribe(id) => Unsubscribe(h, id)
    case DoPublish(e) => Publish(h, e)
    case DoReceive(id) => AfterReceive(h, id)
  }

  /** The state after a whole run. */
  ghost function Exec<E>(h: Hub<E>, steps: seq<Step<E>>): Hub<E>
    decreases |steps|
  {
    if steps == [] then h else Exec(Next(h, steps[0]), steps[1..])
  }

  /** How often a step notifies the DropObserver. */
  ghost function Observed<E>(h: Hub<E>, step: Step<E>): nat {
    match step
    case DoPublish(e) => |Refused(h, e)| + |Evicted(h, e)|
    case DoUnsubscribe(id) => |Trimmed(h, id)|
    case _ => 0
  }
}
