/** The registry of per-session secrets and the masked set it composes for the bridge. */
module Registries {
  import opened Options
  import opened Bridges

  /** Every secret some session holds. */
  ghost function Composed(session: map<string, seq<string>>): set<string> {
    set s, k | s in session && k in session[s] :: k
  }

  /** What the registry and the bridge mask at one instant; a redactor is loaded without the lock. */
  datatype Masks = Masks(registry: set<string>, bridge: Option<set<string>>)

  /** Each of the two masks the old or the new set, and the bridge is never ahead of the registry. */
  predicate OldOrNew(m: Masks, before: set<string>, after: set<string>) {
    m.registry in {before, after} && m.bridge in {Some(before), Some(after)} && (m.bridge == Some(after) ==> m.registry == after)
  }

  class RedactorRegistry {
    const bridge: Bridge
    var redactor: set<string>
    var session: map<string, seq<string>>

    /** Between operations the registry and the bridge mask exactly the composed set. */
    ghost predicate Valid()
      reads this, bridge
    {
      redactor == Composed(session) && bridge.redactor == Some(redactor)
    }

    constructor (bridge: Bridge)
      modifies bridge
      ensures Valid() && this.bridge == bridge && session == map[]
    {
      this.bridge, redactor, session := bridge, {}, map[];
      new;
      ghost var seen := Rebuild();
    }

    /** A line masked meanwhile, without the lock, meets one of the instants in seen. */
    method AddSessionKey(sessionID: string, key: string) returns (ghost seen: seq<Masks>)
      requires Valid()
      modifies this, bridge
      ensures Valid() && session == AddKey(old(session), sessionID, key)
      ensures forall m <- seen :: OldOrNew(m, Composed(old(session)), Composed(session))
    {
      seen := [];
      if key == "" {
        return;
      }
      session := session[sessionID := (if sessionID in session then session[sessionID] else []) + [key]];
      seen := Rebuild();
    }

    method RemoveSessionKey(sessionID: string) returns (ghost seen: seq<Masks>)
      requires Valid()
      modifies this, bridge
      ensures Valid() && session == old(session) - {sessionID}
      ensures forall m <- seen :: OldOrNew(m, Composed(old(session)), Composed(session))
    {
      seen := [];
      if sessionID !in session {
        return;
      }
      session := session - {sessionID};
      seen := Rebuild();
    }

    /** Collects the secrets of all sessions, in whatever order the map yields them, and swaps both redactors one after the other. */
    method Rebuild() returns (ghost seen: seq<Masks>)
      modifies this`redactor, bridge
      ensures Valid()
      ensures seen == [Masks(old(redactor), old(bridge.redactor)), Masks(redactor, old(bridge.redactor)), Masks(redactor, bridge.redactor)]
    {
      seen := [Masks(redactor, bridge.redactor)];
      var all: seq<string> := [];
      var todo := session.Keys;
      while todo != {}
        invariant todo <= session.Keys
        invariant forall k :: k in all <==> exists s :: s in session && s !in todo && k in session[s]
        decreases todo
      {
        var s :| s in todo;
        todo := todo - {s};
        all := all + session[s];
      }
      redactor := set k | k in all;
      seen := seen + [Masks(redactor, bridge.redactor)];
      bridge.SetRedactor(redactor);
      seen := seen + [Masks(redactor, bridge.redactor)];
    }

    /** Takes no lock: at any instant inside an add or remove it masks with the old or the new set. */
    method RedactLine(line: Text) returns (r: Text)
      ensures r == bridge.cfg.mask(redactor, line)
      ensures Valid() ==> r == bridge.cfg.mask(Composed(session), line)
      ensures forall before, after :: OldOrNew(Masks(redactor, bridge.redactor), before, after) ==>
        r == bridge.cfg.mask(before, line) || r == bridge.cfg.mask(after, line)
    {
      r := bridge.cfg.mask(redactor, line);
    }
  }

  ghost function AddKey(session: map<string, seq<string>>, id: string, key: string): map<string, seq<string>> {
    if key == "" then session
    else session[id := (if id in session then session[id] else []) + [key]]
  }

  // ---------- histories ----------

  datatype Op = Add(id: string, key: string) | Remove(id: string)

  ghost function After(session: map<string, seq<string>>, op: Op): map<string, seq<string>> {
    match op
    case Add(id, key) => AddKey(session, id, key)
    case Remove(id) => session - {id}
  }

  ghost function Sessions(ops: seq<Op>): map<string, seq<string>> {
    if ops == [] then map[] else After(Sessions(ops[..|ops| - 1]), ops[|ops| - 1])
  }

  /** Operation i added key for a session that nothing later removed. */
  ghost predicate Stands(ops: seq<Op>, key: string, i: nat)
    requires i < |ops|
  {
    ops[i].Add? && ops[i].key == key && forall j :: i < j < |ops| ==> ops[j] != Remove(ops[i].id)
  }

  /** Session id holds key. */
  ghost predicate Holds(session: map<string, seq<string>>, id: string, key: string) {
    id in session && key in session[id]
  }

  lemma {:induction false} SessionHolds(ops: seq<Op>, id: string, key: string)
    ensures Holds(Sessions(ops), id, key) <==>
      key != "" && exists i :: 0 <= i < |ops| && Stands(ops, key, i) && ops[i].id == id
  {
    if ops != [] {
      var n := |ops| - 1;
      SessionHolds(ops[..n], id, key);
      assert forall i :: 0 <= i < n && ops[n] != Remove(id) && ops[i].Add? && ops[i].id == id ==>
        (Stands(ops, key, i) <==> Stands(ops[..n], key, i));
      if ops[n] == Add(id, key) {
        assert Stands(ops, key, n);
      }
    }
  }

  /**
   After any sequence of adds and removes, a key is masked exactly when it is non-empty and
   some session added it after that session's last removal.
   */
  lemma ComposedIff(ops: seq<Op>, key: string)
    ensures key in Composed(Sessions(ops)) <==> key != "" && exists i :: 0 <= i < |ops| && Stands(ops, key, i)
  {
    if key in Composed(Sessions(ops)) {
      var id :| id in Sessions(ops) && key in Sessions(ops)[id];
      SessionHolds(ops, id, key);
    }
    forall i | 0 <= i < |ops| && Stands(ops, key, i) && key != "" ensures key in Composed(Sessions(ops)) {
      SessionHolds(ops, ops[i].id, key);
    }
  }
}
