/**
 Replay protection: signed requests are verified inside a time window around their stamp and
 then looked up in the replay cache, whose ttl NewCore raises to cover that whole window.
 */
module ReplayProtection {
  import opened TtlCache
  import opened CacheHistory
  import opened ReplayCaches

  const DEFAULT_CAPACITY := 4096

  /** The replay wiring of NewCore; the protocol's default skews are parameters. */
  method NewCore(cfgSkew: int, replay: ReplayCache?, defaultSkew: int, futureSkew: int)
    returns (skew: int, cache: ReplayCache)
    requires replay != null ==> replay.Valid()
    modifies if replay != null then {replay} else {}
    ensures skew == if cfgSkew == 0 then defaultSkew else cfgSkew
    ensures cache.Valid() && CoversWindow(cache.ttl, skew, futureSkew)
    ensures replay != null ==> cache == replay && cache.list.entries == old(replay.list.entries)
    ensures replay != null ==> cache.ttl >= old(replay.ttl) && (old(replay.ttl) <= 0 ==> cache.ttl == old(replay.ttl))
    ensures replay == null ==> fresh(cache) && cache.View() == New(skew + futureSkew, 4096)
  {
    skew := cfgSkew;
    if skew == 0 {
      skew := defaultSkew;
    }
    var floor := skew + futureSkew;
    if replay == null {
      cache := new ReplayCache(floor, DEFAULT_CAPACITY);
    } else {
      cache := replay;
      cache.EnsureMinTTL(floor);
    }
  }

  /** A pair is remembered for as long as its stamp is accepted. */
  ghost predicate CoversWindow(ttl: int, skew: int, future: int) {
    ttl <= 0 || ttl >= skew + future
  }

  // ---------- the gate ----------

  /** What verification depends on: the window and the instant a stamp text denotes. */
  datatype Window = Window(skew: int, future: int, stamp: string -> int)

  /** A request as it arrives at one clock reading; genuine when its signature is right. */
  datatype Event =
    | Request(stamp: string, signature: string, genuine: bool, at: int)
    | Janitor(at: int)

  ghost function Key(e: Event): string
    requires e.Request?
  {
    e.stamp + "." + e.signature
  }

  /** The signature is right and the stamp, a number, is inside the window. */
  ghost predicate Verified(w: Window, e: Event) {
    && e.Request? && e.genuine && '.' !in e.stamp
    && w.stamp(e.stamp) - w.future <= e.at <= w.stamp(e.stamp) + w.skew
  }

  /** What an event does to the cache: only verified requests are looked up. */
  ghost function Feed(w: Window, c: Cache, e: Event): Cache {
    if e.Janitor? then Apply(c, SweepAt(e.at))
    else if Verified(w, e) then Apply(c, Check(Key(e), e.at))
    else c
  }

  /** The cache after the first n events. */
  ghost function CacheAfter(w: Window, start: Cache, events: seq<Event>, n: nat): Cache
    requires n <= |events|
  {
    if n == 0 then start else Feed(w, CacheAfter(w, start, events, n - 1), events[n - 1])
  }

  ghost predicate InOrder(events: seq<Event>) {
    forall i, j :: 0 <= i < j < |events| ==> events[i].at <= events[j].at
  }

  /** The cache may hold records already, all made before the first event; the clock does not go back. */
  ghost predicate Ready(start: Cache, events: seq<Event>) {
    InOrder(events) && Coherent(start) && Sorted(start.entries) && (events != [] ==> NotAfter(start.entries, events[0].at))
  }

  /** Event n is a request that is let through, given all events before it. */
  ghost predicate Accepted(w: Window, start: Cache, events: seq<Event>, n: nat)
    requires n < |events|
  {
    Verified(w, events[n])
    && !Duplicate(CacheAfter(w, start, events, n), Key(events[n]), events[n].at)
  }

  /** Requests let through from event lo on, before event hi. */
  ghost function AcceptedBetween(w: Window, start: Cache, events: seq<Event>, lo: nat, hi: nat): nat
    requires hi <= |events|
    decreases hi
  {
    if hi <= lo then 0
    else AcceptedBetween(w, start, events, lo, hi - 1) + if Accepted(w, start, events, hi - 1) then 1 else 0
  }

  // ---------- from events to histories ----------

  ghost function Note(w: Window, h: History, e: Event): History {
    if e.Janitor? then Record(h, SweepAt(e.at))
    else if Verified(w, e) then Record(h, Check(Key(e), e.at))
    else h
  }

  /** The history of the first n events. */
  ghost function HistoryOf(w: Window, start: Cache, events: seq<Event>, n: nat): History
    requires n <= |events|
  {
    if n == 0 then HistoryOfCache(start) else Note(w, HistoryOf(w, start, events, n - 1), events[n - 1])
  }

  /** The cache after n events simulates their history. */
  lemma {:induction false} EventsSim(w: Window, start: Cache, events: seq<Event>, n: nat, now: int)
    returns (expired: seq<Rec>, p: int)
    requires Ready(start, events) && n <= |events|
    requires NotAfter(start.entries, now) && (n > 0 ==> events[n - 1].at <= now)
    ensures Sim(CacheAfter(w, start, events, n), HistoryOf(w, start, events, n), now, expired, p)
    decreases n
  {
    if n == 0 {
      expired, p := [], 0;
      StartSim(start, HistoryOf(w, start, events, 0), now);
    } else {
      var e := events[n - 1];
      expired, p := EventsSim(w, start, events, n - 1, e.at);
      expired, p := FeedSim(w, CacheAfter(w, start, events, n - 1), HistoryOf(w, start, events, n - 1), expired, p, e);
      TickSim(CacheAfter(w, start, events, n), HistoryOf(w, start, events, n), e.at, expired, p, now);
    }
  }

  lemma FeedSim(w: Window, c: Cache, h: History, expired: seq<Rec>, p: int, e: Event) returns (expired': seq<Rec>, p': int)
    requires Sim(c, h, e.at, expired, p)
    ensures Sim(Feed(w, c, e), Note(w, h, e), e.at, expired', p')
  {
    if e.Janitor? {
      expired', p' := StepSim(c, h, e.at, expired, p, SweepAt(e.at));
    } else if Verified(w, e) {
      expired', p' := StepSim(c, h, e.at, expired, p, Check(Key(e), e.at));
    } else {
      expired', p' := expired, p;
    }
  }

  /** A verified request is let through exactly when the history does not hold it as replayed. */
  lemma AcceptedIff(w: Window, start: Cache, events: seq<Event>, n: nat)
    requires Ready(start, events) && n < |events| && Verified(w, events[n])
    ensures Accepted(w, start, events, n)
       <==> !Replayed(HistoryOf(w, start, events, n), Key(events[n]), events[n].at)
  {
    var expired, p := EventsSim(w, start, events, n, events[n].at);
    SameAnswer(CacheAfter(w, start, events, n), HistoryOf(w, start, events, n),
               expired, p, Key(events[n]), events[n].at);
  }

  lemma HistoryStep(w: Window, start: Cache, events: seq<Event>, n: nat)
    requires Ready(start, events) && n < |events|
    ensures
      var e, h := events[n], HistoryOf(w, start, events, n);
      HistoryOf(w, start, events, n + 1) ==
        if Accepted(w, start, events, n) then h.(admitted := h.admitted + [Rec(Key(e), e.at)])
        else if e.Janitor? then h.(sweeps := h.sweeps + [e.at])
        else h
  {
    if Verified(w, events[n]) {
      AcceptedIff(w, start, events, n);
    }
  }

  /** Admissions only accumulate, one for each request let through. */
  lemma {:induction false} AdmissionsCounted(w: Window, start: Cache, events: seq<Event>, lo: nat, hi: nat)
    requires Ready(start, events) && lo <= hi <= |events|
    ensures |HistoryOf(w, start, events, hi).admitted|
         == |HistoryOf(w, start, events, lo).admitted| + AcceptedBetween(w, start, events, lo, hi)
    decreases hi - lo
  {
    if lo < hi {
      AdmissionsCounted(w, start, events, lo, hi - 1);
      OneAdmission(w, start, events, hi - 1);
    }
  }

  lemma {:induction false} AdmissionsKept(w: Window, start: Cache, events: seq<Event>, lo: nat, hi: nat)
    requires Ready(start, events) && lo <= hi <= |events|
    ensures HistoryOf(w, start, events, lo).admitted <= HistoryOf(w, start, events, hi).admitted
    decreases hi - lo
  {
    if lo < hi {
      AdmissionsKept(w, start, events, lo, hi - 1);
      OneAdmission(w, start, events, hi - 1);
    }
  }

  lemma OneAdmission(w: Window, start: Cache, events: seq<Event>, n: nat)
    requires Ready(start, events) && n < |events|
    ensures HistoryOf(w, start, events, n).admitted <= HistoryOf(w, start, events, n + 1).admitted
    ensures |HistoryOf(w, start, events, n + 1).admitted|
         == |HistoryOf(w, start, events, n).admitted| + if Accepted(w, start, events, n) then 1 else 0
  {
    HistoryStep(w, start, events, n);
  }

  /** Every sweep in the history is a janitor event. */
  lemma {:induction false} SweepsAreJanitors(w: Window, start: Cache, events: seq<Event>, n: nat, t: int)
    requires Ready(start, events) && n <= |events|
    ensures t in HistoryOf(w, start, events, n).sweeps <==> exists m :: 0 <= m < n && events[m] == Janitor(t)
    ensures var h := HistoryOf(w, start, events, n); h.ttl == start.ttl && h.capacity == start.capacity
    decreases n
  {
    if n > 0 {
      OneSweep(w, start, events, n - 1, t);
      SweepsAreJanitors(w, start, events, n - 1, t);
    }
  }

  lemma OneSweep(w: Window, start: Cache, events: seq<Event>, n: nat, t: int)
    requires Ready(start, events) && n < |events|
    ensures var h, h' := HistoryOf(w, start, events, n), HistoryOf(w, start, events, n + 1);
      (t in h'.sweeps <==> t in h.sweeps || events[n] == Janitor(t)) && h'.ttl == h.ttl && h'.capacity == h.capacity
  {
    HistoryStep(w, start, events, n);
  }

  // ---------- the window ----------

  /** A composite key determines its stamp: a stamp has no dot. */
  lemma {:induction false} KeyDetermines(a: string, x: string, b: string, y: string)
    requires '.' !in a && '.' !in b && a + "." + x == b + "." + y
    ensures a == b && x == y
  {
    var s := a + "." + x;
    assert s[|a|] == '.' && s[|b|] == '.';
    assert forall i :: 0 <= i < |a| ==> s[i] == a[i] && s[i] in a;
    assert forall i :: 0 <= i < |b| ==> s[i] == b[i] && s[i] in b;
    assert a == s[..|a|] && b == s[..|b|] && x == s[|a| + 1..] && y == s[|b| + 1..];
  }

  /** Whatever was admitted under the key of this stamp, from position lo on, was admitted inside its window. */
  ghost predicate AdmittedInWindow(w: Window, h: History, lo: nat, e: Event)
    requires e.Request?
  {
    forall i :: lo <= i < |h.admitted| && h.admitted[i].key == Key(e) ==>
      w.stamp(e.stamp) - w.future <= h.admitted[i].at <= w.stamp(e.stamp) + w.skew
  }

  lemma {:induction false} AllInWindow(w: Window, start: Cache, events: seq<Event>, n: nat, e: Event)
    requires Ready(start, events) && n <= |events| && Verified(w, e)
    ensures AdmittedInWindow(w, HistoryOf(w, start, events, n), |start.entries|, e)
    decreases n
  {
    if n > 0 {
      AllInWindow(w, start, events, n - 1, e);
      InWindowStep(w, start, events, n - 1, e);
    }
  }

  lemma InWindowStep(w: Window, start: Cache, events: seq<Event>, n: nat, e: Event)
    requires Ready(start, events) && n < |events| && Verified(w, e)
    requires AdmittedInWindow(w, HistoryOf(w, start, events, n), |start.entries|, e)
    ensures AdmittedInWindow(w, HistoryOf(w, start, events, n + 1), |start.entries|, e)
  {
    HistoryStep(w, start, events, n);
    var last := events[n];
    if Accepted(w, start, events, n) && Key(last) == Key(e) {
      KeyDetermines(last.stamp, last.signature, e.stamp, e.signature);
    }
  }

  /**
   A recorded pair is let through again, inside its window, exactly when a full cache of
   admissions has followed its latest one, or its latest one is exactly ttl old and a sweep
   has run at this very instant, or it is a record the cache brought along and more than ttl old.
   */
  lemma SecondAttemptIff(w: Window, start: Cache, events: seq<Event>, n: nat)
    requires Ready(start, events) && n < |events| && Verified(w, events[n]) && CoversWindow(start.ttl, w.skew, w.future)
    requires Latest(HistoryOf(w, start, events, n).admitted, Key(events[n])) >= 0
    ensures
      var h := HistoryOf(w, start, events, n);
      var i, t := Latest(h.admitted, Key(events[n])), events[n].at;
      var age := t - h.admitted[i].at;
      var crowdedOut := start.capacity > 0 && |h.admitted| - 1 - i >= start.capacity;
      var sweptNow := start.ttl > 0 && age == start.ttl && exists m :: 0 <= m < n && events[m] == Janitor(t);
      var outlived := i < |start.entries| && start.ttl > 0 && age > start.ttl;
      Accepted(w, start, events, n) <==> crowdedOut || sweptNow || outlived
  {
    AcceptedIff(w, start, events, n);
    AllInWindow(w, start, events, n, events[n]);
    SweepsAreJanitors(w, start, events, n, events[n].at);
  }

  /**
   No double acceptance, whatever the cache held at the start: two acceptances of one pair have
   at least `capacity` other acceptances between them, or are exactly ttl apart with a sweep at
   the very instant of the second. (They are never more than ttl apart, so only a ttl at its
   floor has that exception.)
   */
  lemma NoDoubleAcceptance(w: Window, start: Cache, events: seq<Event>, i: nat, j: nat)
    requires Ready(start, events) && i < j < |events| && CoversWindow(start.ttl, w.skew, w.future)
    requires Accepted(w, start, events, i) && Accepted(w, start, events, j)
    requires events[i].stamp == events[j].stamp && events[i].signature == events[j].signature
    ensures || (start.capacity > 0 && AcceptedBetween(w, start, events, i + 1, j) >= start.capacity)
            || (start.ttl > 0 && events[j].at - events[i].at == start.ttl == w.skew + w.future
                && exists m :: 0 <= m < j && events[m] == Janitor(events[j].at))
  {
    LatestSince(w, start, events, i, j);
    SecondAttemptIff(w, start, events, j);
  }

  /** At event j the latest admission of an accepted pair is no older than event i, and few follow it. */
  lemma LatestSince(w: Window, start: Cache, events: seq<Event>, i: nat, j: nat)
    requires Ready(start, events) && i < j < |events| && Accepted(w, start, events, i)
    ensures
      var h := HistoryOf(w, start, events, j);
      var latest := Latest(h.admitted, Key(events[i]));
      && latest >= 0 && h.admitted[latest].at >= events[i].at
      && |h.admitted| - 1 - latest <= AcceptedBetween(w, start, events, i + 1, j)
  {
    var a := AdmittedAt(w, start, events, i, j);
    var expired, p := EventsSim(w, start, events, j, events[j].at);
    LatestFrom(HistoryOf(w, start, events, j).admitted, a, Key(events[i]));
  }

  /** Where event i's admission is in the history at event j, and how many follow it. */
  lemma AdmittedAt(w: Window, start: Cache, events: seq<Event>, i: nat, j: nat) returns (a: int)
    requires Ready(start, events) && i < j < |events| && Accepted(w, start, events, i)
    ensures var admitted := HistoryOf(w, start, events, j).admitted;
      && 0 <= a < |admitted| && admitted[a] == Rec(Key(events[i]), events[i].at)
      && |admitted| - 1 - a == AcceptedBetween(w, start, events, i + 1, j)
  {
    a := |HistoryOf(w, start, events, i).admitted|;
    HistoryStep(w, start, events, i);
    AdmissionsCounted(w, start, events, i + 1, j);
    AdmissionsKept(w, start, events, i + 1, j);
  }

  lemma LatestFrom(admitted: seq<Rec>, a: int, key: string)
    requires 0 <= a < |admitted| && admitted[a].key == key && Sorted(admitted)
    ensures Latest(admitted, key) >= a && admitted[Latest(admitted, key)].at >= admitted[a].at
  {
  }

  /** With neither a full cache in between nor a sweep at that instant, the second attempt is refused. */
  lemma ReplayRefused(w: Window, start: Cache, events: seq<Event>, i: nat, j: nat)
    requires Ready(start, events) && i < j < |events| && CoversWindow(start.ttl, w.skew, w.future)
    requires Accepted(w, start, events, i)
    requires events[j].Request? && events[i].stamp == events[j].stamp && events[i].signature == events[j].signature
    requires start.capacity > 0 ==> AcceptedBetween(w, start, events, i + 1, j) < start.capacity
    requires start.ttl == w.skew + w.future ==> forall m :: 0 <= m < j ==> events[m] != Janitor(events[j].at)
    ensures !Accepted(w, start, events, j)
  {
    if Accepted(w, start, events, j) {
      NoDoubleAcceptance(w, start, events, i, j);
    }
  }

  /**
   The exception is real: with the ttl at its floor, a pair let through at the start of its
   window, swept and sent again at the last instant of it, is let through twice.
   */
  lemma BoundarySweepReadmits(stamp: string, signature: string, denotes: string -> int, skew: int, future: int, capacity: int)
    requires '.' !in stamp && skew + future > 0
    ensures
      var w, t := Window(skew, future, denotes), denotes(stamp);
      var events := [Request(stamp, signature, true, t - future), Janitor(t + skew), Request(stamp, signature, true, t + skew)];
      var start := New(skew + future, capacity);
      Accepted(w, start, events, 0) && Accepted(w, start, events, 2)
  {
    var w, t, start := Window(skew, future, denotes), denotes(stamp), New(skew + future, capacity);
    var events := [Request(stamp, signature, true, t - future), Janitor(t + skew), Request(stamp, signature, true, t + skew)];
    FirstIsAdmitted(w, start, events);
    SweptThenAdmitted(w, start, events);
  }

  lemma SweptThenAdmitted(w: Window, start: Cache, events: seq<Event>)
    requires Ready(start, events) && |events| == 3 && Verified(w, events[2]) && Accepted(w, start, events, 0)
    requires HistoryOf(w, start, events, 1).admitted == [Rec(Key(events[2]), events[0].at)]
    requires start.ttl > 0 && events[1] == Janitor(events[2].at) && events[2].at - events[0].at == start.ttl
    ensures Accepted(w, start, events, 2)
  {
    HistoryStep(w, start, events, 1);
    SweepsAreJanitors(w, start, events, 2, events[2].at);
    AcceptedIff(w, start, events, 2);
  }

  lemma FirstIsAdmitted(w: Window, start: Cache, events: seq<Event>)
    requires Ready(start, events) && events != [] && Verified(w, events[0]) && start.entries == []
    ensures Accepted(w, start, events, 0)
    ensures HistoryOf(w, start, events, 1).admitted == [Rec(Key(events[0]), events[0].at)]
  {
    assert HistoryOf(w, start, events, 0) == HistoryOfCache(start);
    AcceptedIff(w, start, events, 0);
    HistoryStep(w, start, events, 0);
  }
}
