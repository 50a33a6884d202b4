/** The pending-voice registry: who owns each voice note between its arrival and the end
    of its handoff. */
module VoiceRegistry {
  import opened Common

  type Scope = string
  type Id = string

  /** An opaque ownership token.  `serial` stands for the unique claim id. */
  datatype Claim = Claim(scope: Scope, voiceId: Id, serial: nat)

  /** What a registered claim carries: its bound status message and whether its handoff
      task exists. */
  datatype Entry = Entry(status: Option<Id>, handedOff: bool)

  type Key = (Scope, Id)

  datatype Registry = Registry(
    index: map<Key, Claim>,
    entries: map<Claim, Entry>,
    active: map<Claim, nat>,
    issued: nat)

  function Empty(): Registry {
    Registry(map[], map[], map[], 0)
  }

  function VoiceKey(c: Claim): Key {
    (c.scope, c.voiceId)
  }

  /** The keys a claim is registered under: its voice id and its bound status id. */
  function KeysOf(c: Claim, e: Entry): set<Key> {
    {VoiceKey(c)} + if e.status.Some? then {(c.scope, e.status.value)} else {}
  }

  // ----- the operations, on values -----

  predicate Owned(r: Registry, c: Claim) {
    VoiceKey(c) in r.index && r.index[VoiceKey(c)] == c
  }

  function Reserve(r: Registry, scope: Scope, voiceId: Id): (Registry, Option<Claim>) {
    if (scope, voiceId) in r.index then (r, None)
    else
      var c := Claim(scope, voiceId, r.issued);
      (r.(index := r.index[(scope, voiceId) := c], entries := r.entries[c := Entry(None, false)], issued := r.issued + 1),
       Some(c))
  }

  function BindStatus(r: Registry, c: Claim, statusId: Id): (Registry, bool) {
    if !Owned(r, c) || c !in r.entries then (r, false)
    else if r.entries[c].status.Some? then (r, r.entries[c].status == Some(statusId))
    else
      var key := (c.scope, statusId);
      if key in r.index && r.index[key] != c then (r, false)
      else
        (r.(index := r.index[key := c], entries := r.entries[c := r.entries[c].(status := Some(statusId))]), true)
  }

  /** The section of `handoff` that creates the task; refused claims create none. */
  function BeginHandoff(r: Registry, c: Claim): (Registry, bool) {
    if !Owned(r, c) || c !in r.entries || r.entries[c].status.None? || r.entries[c].handedOff then (r, false)
    else (r.(entries := r.entries[c := r.entries[c].(handedOff := true)]), true)
  }

  function Remove(r: Registry, c: Claim): Registry
    requires c in r.entries
  {
    var keys := KeysOf(c, r.entries[c]);
    r.(index := map k | k in r.index && !(k in keys && r.index[k] == c) :: r.index[k], entries := r.entries - {c})
  }

  function RemoveAll(r: Registry, cs: set<Claim>): Registry {
    r.(index := map k | k in r.index && r.index[k] !in cs :: r.index[k], entries := r.entries - cs)
  }

  /** Completion and discard both take a claim only while it is owned. */
  function TakeIfOwned(r: Registry, c: Claim): (Registry, bool) {
    if !Owned(r, c) || c !in r.entries then (r, false) else (Remove(r, c), true)
  }

  function ActiveCount(r: Registry, c: Claim): nat {
    if c in r.active then r.active[c] else 0
  }

  predicate Excluded(r: Registry, c: Claim, current: Option<Claim>) {
    Some(c) == current || ActiveCount(r, c) > 0
  }

  /** The claims one cancel takes: the one under a reply id, or all of a scope, or all. */
  datatype Target = Reply(scope: Scope, replyId: Id) | WholeScope(scope: Scope) | Everything

  ghost predicate Hits(k: Key, target: Target) {
    match target
    case Reply(scope, replyId) => k == (scope, replyId)
    case WholeScope(scope) => k.0 == scope
    case Everything => true
  }

  ghost function Taken(r: Registry, target: Target, current: Option<Claim>): set<Claim> {
    set k | k in r.index && Hits(k, target) && !Excluded(r, r.index[k], current) :: r.index[k]
  }

  function Protect(r: Registry, current: Option<Claim>): Registry {
    if current.None? then r else r.(active := r.active[current.value := ActiveCount(r, current.value) + 1])
  }

  function Unprotect(r: Registry, current: Option<Claim>): Registry {
    if current.None? || ActiveCount(r, current.value) == 0 then r
    else if ActiveCount(r, current.value) == 1 then r.(active := r.active - {current.value})
    else r.(active := r.active[current.value := ActiveCount(r, current.value) - 1])
  }

  /** What a cancellation releases for the chat: the voice note (unless the reply named
      something else) and the bound status message. */
  datatype Cancellation = Cancellation(scope: Scope, voiceId: Id, status: Option<Id>, deletes: set<Id>)

  function CancellationFor(c: Claim, e: Entry, reference: Option<Id>): Cancellation {
    var own := if reference.Some? && reference.value != c.voiceId then {} else {c.voiceId};
    Cancellation(c.scope, c.voiceId, e.status, own + if e.status.Some? then {e.status.value} else {})
  }

  // ----- the invariant -----

  /** Every key maps to a registered claim, and each registered claim sits under exactly its
      voice id and its bound status id. */
  ghost predicate Inv(r: Registry) {
    && (forall k | k in r.index :: r.index[k] in r.entries)
    && (forall c | c in r.entries :: c.serial < r.issued && forall k :: (k in r.index && r.index[k] == c) <==> k in KeysOf(c, r.entries[c]))
  }

  lemma {:induction false} EmptyInv()
    ensures Inv(Empty())
  {
  }

  /** Distinct registered claims share no key, and a claim is owned exactly while registered. */
  lemma {:induction false} KeysAreExclusive(r: Registry, c: Claim, d: Claim)
    requires Inv(r) && c in r.entries && d in r.entries && c != d
    ensures KeysOf(c, r.entries[c]) !! KeysOf(d, r.entries[d])
    ensures Owned(r, c)
  {
    forall k | k in KeysOf(c, r.entries[c]) ensures k !in KeysOf(d, r.entries[d]) {
      assert k in r.index && r.index[k] == c;
    }
    assert VoiceKey(c) in KeysOf(c, r.entries[c]);
  }

  lemma {:induction false} OwnedMeansRegistered(r: Registry, c: Claim)
    requires Inv(r)
    ensures Owned(r, c) <==> c in r.entries
  {
    if c in r.entries { assert VoiceKey(c) in KeysOf(c, r.entries[c]); }
  }

  lemma {:induction false} ReserveKeeps(r: Registry, scope: Scope, voiceId: Id)
    requires Inv(r)
    ensures Inv(Reserve(r, scope, voiceId).0)
    ensures var (r', c) := Reserve(r, scope, voiceId);
            if (scope, voiceId) in r.index then c.None? && r' == r
            else c.Some? && c.value !in r.entries && c.value.serial == r.issued && VoiceKey(c.value) == (scope, voiceId)
                 && r'.issued == r.issued + 1 && r'.entries == r.entries[c.value := Entry(None, false)]
  {
    var (r', made) := Reserve(r, scope, voiceId);
    if (scope, voiceId) !in r.index {
      var f := made.value;
      forall c, k | c in r'.entries ensures (k in r'.index && r'.index[k] == c) <==> k in KeysOf(c, r'.entries[c]) {
        if c != f { assert c in r.entries; }
      }
    }
  }

  /** A claim may be bound to a status message unless it is bound to another or the message belongs to another claim. */
  predicate Bindable(r: Registry, c: Claim, statusId: Id) {
    && c in r.entries
    && if r.entries[c].status.Some? then r.entries[c].status == Some(statusId)
       else forall d | d in r.entries && d != c :: (c.scope, statusId) !in KeysOf(d, r.entries[d])
  }

  /** Binding succeeds exactly when the claim may be bound. */
  lemma {:induction false} BindsExactly(r: Registry, c: Claim, statusId: Id)
    requires Inv(r)
    ensures BindStatus(r, c, statusId).1 <==> Bindable(r, c, statusId)
  {
    OwnedMeansRegistered(r, c);
    var key := (c.scope, statusId);
    if c in r.entries && r.entries[c].status.None? {
      if key in r.index && r.index[key] != c {
        assert key in KeysOf(r.index[key], r.entries[r.index[key]]);
      }
      forall d | d in r.entries && d != c && key in KeysOf(d, r.entries[d]) ensures key in r.index && r.index[key] == d {
      }
    }
  }

  lemma {:induction false} BoundKeeps(r: Registry, c: Claim, statusId: Id)
    requires Inv(r) && c in r.entries && r.entries[c].status.None?
    requires (c.scope, statusId) in r.index ==> r.index[(c.scope, statusId)] == c
    ensures Inv(r.(index := r.index[(c.scope, statusId) := c], entries := r.entries[c := r.entries[c].(status := Some(statusId))]))
  {
    var r' := r.(index := r.index[(c.scope, statusId) := c], entries := r.entries[c := r.entries[c].(status := Some(statusId))]);
    forall d, k | d in r'.entries ensures (k in r'.index && r'.index[k] == d) <==> k in KeysOf(d, r'.entries[d]) {
      assert d in r.entries;
    }
  }

  /** It then binds the claim and changes nothing else, and a refused binding changes nothing. */
  lemma {:induction false} BindKeeps(r: Registry, c: Claim, statusId: Id)
    requires Inv(r)
    ensures Inv(BindStatus(r, c, statusId).0)
    ensures BindStatus(r, c, statusId).0.entries.Keys == r.entries.Keys
    ensures var (r', ok) := BindStatus(r, c, statusId);
            if ok then
              && c in r'.entries && (c.scope, statusId) in r'.index && r'.index[(c.scope, statusId)] == c
              && r'.entries == r.entries[c := Entry(Some(statusId), r.entries[c].handedOff)]
            else r' == r
  {
    hide Inv;
    if Owned(r, c) && c in r.entries {
      var key := (c.scope, statusId);
      if r.entries[c].status == Some(statusId) {
        BoundIsIndexed(r, c);
        assert r.entries == r.entries[c := Entry(Some(statusId), r.entries[c].handedOff)];
      } else if r.entries[c].status.None? && (key in r.index ==> r.index[key] == c) {
        BoundKeeps(r, c, statusId);
      }
    }
  }

  lemma {:induction false} BoundIsIndexed(r: Registry, c: Claim)
    requires Inv(r) && c in r.entries && r.entries[c].status.Some?
    ensures var key := (c.scope, r.entries[c].status.value); key in r.index && r.index[key] == c
  {
    assert (c.scope, r.entries[c].status.value) in KeysOf(c, r.entries[c]);
  }

  /** A claim whose handoff may begin: registered, published under a status message, and not handed off before. */
  predicate Startable(r: Registry, c: Claim) {
    c in r.entries && r.entries[c].status.Some? && !r.entries[c].handedOff
  }

  lemma {:induction false} MarkedKeeps(r: Registry, c: Claim)
    requires Inv(r) && c in r.entries
    ensures Inv(r.(entries := r.entries[c := Entry(r.entries[c].status, true)]))
  {
    var r' := r.(entries := r.entries[c := Entry(r.entries[c].status, true)]);
    forall d, k | d in r'.entries ensures (k in r'.index && r'.index[k] == d) <==> k in KeysOf(d, r'.entries[d]) {
      assert KeysOf(d, r'.entries[d]) == KeysOf(d, r.entries[d]);
    }
  }

  /** A handoff begins exactly for such a claim, and uses up its one beginning. */
  lemma {:induction false} BeginHandoffKeeps(r: Registry, c: Claim)
    requires Inv(r)
    ensures Inv(BeginHandoff(r, c).0) && BeginHandoff(r, c).0.entries.Keys == r.entries.Keys
    ensures BeginHandoff(r, c).1 <==> Startable(r, c)
    ensures BeginHandoff(r, c).0.entries == if Startable(r, c) then r.entries[c := Entry(r.entries[c].status, true)] else r.entries
    ensures BeginHandoff(r, c).0.index == r.index
  {
    hide Inv;
    OwnedMeansRegistered(r, c);
    if Startable(r, c) {
      MarkedKeeps(r, c);
    }
  }

  /** Popping the claim's own keys, each only if it still maps to the claim, removes exactly
      the keys that map to it. */
  lemma {:induction false} RemoveIsRemoveAll(r: Registry, c: Claim)
    requires Inv(r) && c in r.entries
    ensures Remove(r, c) == RemoveAll(r, {c})
  {
    assert Remove(r, c).index == RemoveAll(r, {c}).index;
  }

  lemma {:induction false} RemoveAllKeeps(r: Registry, cs: set<Claim>)
    requires Inv(r)
    ensures Inv(RemoveAll(r, cs)) && RemoveAll(r, cs).entries == r.entries - cs
  {
    var r' := RemoveAll(r, cs);
    forall d, k | d in r'.entries ensures (k in r'.index && r'.index[k] == d) <==> k in KeysOf(d, r'.entries[d]) {
      assert d in r.entries && r'.entries[d] == r.entries[d];
    }
  }

  lemma {:induction false} TakeKeeps(r: Registry, c: Claim)
    requires Inv(r)
    ensures Inv(TakeIfOwned(r, c).0) && TakeIfOwned(r, c).0.entries == r.entries - {c}
    ensures TakeIfOwned(r, c).1 <==> c in r.entries
  {
    OwnedMeansRegistered(r, c);
    if c in r.entries {
      RemoveIsRemoveAll(r, c);
      RemoveAllKeeps(r, {c});
    }
  }

  /** A cancel takes only registered claims, never the caller's own nor a protected one. */
  lemma {:induction false} TakenAreUnprotected(r: Registry, target: Target, current: Option<Claim>, c: Claim)
    requires Inv(r) && c in Taken(r, target, current)
    ensures c in r.entries && Some(c) != current && ActiveCount(r, c) == 0
  {
  }

  /** A claim a cancel is aimed at: by one of its ids, by its scope, or with all others. */
  predicate Aimed(c: Claim, e: Entry, target: Target) {
    match target
    case Reply(scope, replyId) => (scope, replyId) in KeysOf(c, e)
    case WholeScope(scope) => c.scope == scope
    case Everything => true
  }

  /** A cancel takes exactly the registered claims it is aimed at, but the caller's own and those protected. */
  lemma {:induction false} TakenExactly(r: Registry, target: Target, current: Option<Claim>, c: Claim)
    requires Inv(r)
    ensures c in Taken(r, target, current) <==>
              c in r.entries && Aimed(c, r.entries[c], target) && Some(c) != current && ActiveCount(r, c) == 0
  {
    if c in r.entries {
      assert VoiceKey(c) in KeysOf(c, r.entries[c]);
      assert r.index[VoiceKey(c)] == c;
      if Aimed(c, r.entries[c], target) && target.Reply? {
        assert (target.scope, target.replyId) in r.index && r.index[(target.scope, target.replyId)] == c;
      }
    }
    if c in Taken(r, target, current) {
      var k :| k in r.index && Hits(k, target) && r.index[k] == c;
      assert k in KeysOf(c, r.entries[c]);
    }
  }

  /** The messages a cancellation has the chat delete: the bound status message, and the voice note itself unless the
      cancel named another message. */
  lemma {:induction false} CancellationDeletes(c: Claim, e: Entry, reference: Option<Id>, id: Id)
    ensures var r := CancellationFor(c, e, reference);
            && r.scope == c.scope && r.voiceId == c.voiceId && r.status == e.status
            && (id in r.deletes <==> e.status == Some(id) || (id == c.voiceId && (reference.None? || reference == Some(c.voiceId))))
  {
  }

  lemma {:induction false} ProtectKeeps(r: Registry, current: Option<Claim>)
    requires Inv(r)
    ensures Inv(Protect(r, current)) && Inv(Unprotect(r, current))
  {
  }
}
