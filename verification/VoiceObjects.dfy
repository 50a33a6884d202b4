/** The registry object over shared, mutable entries: one entry sits under up to two keys. */
module VoiceObjects {
  import opened Common
  import opened VoiceRegistry

  class PendingVoice {
    const claim: Claim
    var status: Option<Id>
    var handedOff: bool

    constructor (claim: Claim)
      ensures this.claim == claim && status == None && !handedOff
    {
      this.claim := claim;
      status, handedOff := None, false;
    }
  }

  ghost function ClaimsOf(entries: set<PendingVoice>): set<Claim> {
    set e | e in entries :: e.claim
  }

  lemma {:induction false} ClaimsOfAdd(entries: set<PendingVoice>, e: PendingVoice)
    ensures ClaimsOf(entries + {e}) == ClaimsOf(entries) + {e.claim} && ClaimsOf({}) == {}
  {
    forall c | c in ClaimsOf(entries) ensures c in ClaimsOf(entries + {e}) {
      var d :| d in entries && d.claim == c;
      assert d in entries + {e};
    }
    assert e in entries + {e};
  }

  lemma {:induction false} RemoveNone(r: Registry)
    ensures RemoveAll(r, ClaimsOf({})) == r
  {
    assert ClaimsOf({}) == {};
    assert RemoveAll(r, {}).index == r.index;
  }

  lemma {:induction false} BoundIs(r: Registry, c: Claim, statusId: Id, bound: Registry)
    requires c in r.entries && Owned(r, c) && r.entries[c].status.None?
    requires (c.scope, statusId) in r.index ==> r.index[(c.scope, statusId)] == c
    requires bound == r.(index := r.index[(c.scope, statusId) := c],
                         entries := r.entries[c := Entry(Some(statusId), r.entries[c].handedOff)])
    ensures VoiceRegistry.BindStatus(r, c, statusId).0 == bound
  {
  }

  lemma {:induction false} BoundInv(r: Registry, c: Claim, statusId: Id)
    requires Inv(r)
    ensures Inv(VoiceRegistry.BindStatus(r, c, statusId).0)
  {
    BindKeeps(r, c, statusId);
  }

  /** Same keys, and keys of one claim hold one entry. */
  ghost predicate Shares(pending: map<Key, PendingVoice>, index: map<Key, Claim>) {
    && pending.Keys == index.Keys
    && forall j, k | j in pending && k in pending && index[j] == index[k] :: pending[j] == pending[k]
  }

  lemma {:induction false} SharesAnother(pending: map<Key, PendingVoice>, index: map<Key, Claim>, key: Key, at: Key)
    requires Shares(pending, index) && at in pending && (key in pending ==> index[key] == index[at])
    ensures Shares(pending[key := pending[at]], index[key := index[at]])
  {
  }

  lemma {:induction false} SharesNew(pending: map<Key, PendingVoice>, index: map<Key, Claim>, key: Key, entry: PendingVoice, c: Claim)
    requires Shares(pending, index) && key !in pending && forall k | k in index :: index[k] != c
    ensures Shares(pending[key := entry], index[key := c])
  {
  }

  lemma {:induction false} SharesFewer(pending: map<Key, PendingVoice>, index: map<Key, Claim>,
                                       pending': map<Key, PendingVoice>, index': map<Key, Claim>)
    requires Shares(pending, index) && pending'.Keys == index'.Keys && pending'.Keys <= pending.Keys
    requires forall k | k in pending' :: pending'[k] == pending[k] && index'[k] == index[k]
    ensures Shares(pending', index')
  {
  }

  lemma {:induction false} SharesKeys(pending: map<Key, PendingVoice>, index: map<Key, Claim>)
    requires Shares(pending, index)
    ensures pending.Keys == index.Keys
  {
  }

  lemma {:induction false} SharesEntry(pending: map<Key, PendingVoice>, index: map<Key, Claim>, at: Key)
    requires Shares(pending, index) && at in pending
    ensures pending.Keys == index.Keys
    ensures forall k | k in pending && index[k] == index[at] :: pending[k] == pending[at]
  {
  }

  class PendingVoiceRegistry {
    var pending: map<Key, PendingVoice>
    var active: map<Claim, nat>
    var issued: nat
    ghost var model: Registry

    /** The dictionary of shared entries is the model: same keys, same claims, same fields,
        and two keys share an entry exactly when they share its claim. */
    ghost predicate Valid()
      reads this, pending.Values
    {
      && Inv(model) && model.active == active && model.issued == issued
      && Shares(pending, model.index)
      && (forall k | k in pending ::
            && pending[k].claim == model.index[k]
            && model.index[k] in model.entries
            && model.entries[model.index[k]] == Entry(pending[k].status, pending[k].handedOff))
    }

    constructor ()
      ensures Valid() && model == Empty() && pending == map[]
    {
      pending, active, issued := map[], map[], 0;
      model := Empty();
      new;
      EmptyInv();
    }

    method Reserve(scope: Scope, voiceId: Id) returns (claim: Option<Claim>)
      requires Valid()
      modifies this`pending, this`issued, this`model
      ensures Valid() && (model, claim) == VoiceRegistry.Reserve(old(model), scope, voiceId)
      ensures fresh(pending.Values - old(pending.Values))
    {
      hide Inv, Shares;
      SharesKeys(pending, model.index);
      ReserveKeeps(model, scope, voiceId);
      if (scope, voiceId) in pending {
        return None;
      }
      var c := Claim(scope, voiceId, issued);
      var entry := new PendingVoice(c);
      forall k | k in pending ensures model.index[k] != c {
        assert model.index[k] in model.entries;
      }
      SharesNew(pending, model.index, (scope, voiceId), entry, c);
      pending := pending[(scope, voiceId) := entry];
      issued := issued + 1;
      model := VoiceRegistry.Reserve(model, scope, voiceId).0;
      claim := Some(c);
    }

    method EntryForClaim(claim: Claim) returns (entry: PendingVoice?)
      requires Valid()
      ensures entry != null <==> claim in model.entries
      ensures entry != null ==> Owned(model, claim) && entry == pending[VoiceKey(claim)] && entry.claim == claim
    {
      OwnedMeansRegistered(model, claim);
      if VoiceKey(claim) !in pending || pending[VoiceKey(claim)].claim != claim {
        return null;
      }
      return pending[VoiceKey(claim)];
    }

    method BindStatus(claim: Claim, statusId: Id) returns (ok: bool)
      requires Valid()
      modifies this`pending, this`model, pending.Values
      ensures Valid() && (model, ok) == VoiceRegistry.BindStatus(old(model), claim, statusId)
      ensures pending.Values == old(pending.Values)
    {
      hide Inv;
      BindKeeps(model, claim, statusId);
      var entry := EntryForClaim(claim);
      OwnedMeansRegistered(model, claim);
      if entry == null {
        return false;
      }
      if entry.status.Some? {
        return entry.status == Some(statusId);
      }
      var key := (claim.scope, statusId);
      if key in pending && pending[key] != entry {
        return false;
      }
      BindEntry(entry, statusId);
      ok := true;
    }

    method BindEntry(entry: PendingVoice, statusId: Id)
      requires Valid() && entry.claim in model.entries && Owned(model, entry.claim) && entry == pending[VoiceKey(entry.claim)]
      requires entry.status.None?
      requires var key := (entry.claim.scope, statusId); key in pending ==> pending[key] == entry
      modifies this`pending, this`model, entry`status
      ensures Valid() && model == VoiceRegistry.BindStatus(old(model), entry.claim, statusId).0
      ensures pending.Values == old(pending.Values)
    {
      hide Inv, VoiceRegistry.BindStatus, Shares;
      BoundInv(model, entry.claim, statusId);
      var key := (entry.claim.scope, statusId);
      SharesKeys(pending, model.index);
      SharesEntry(pending, model.index, VoiceKey(entry.claim));
      SharesAnother(pending, model.index, key, VoiceKey(entry.claim));
      SameValues(pending, key, VoiceKey(entry.claim));
      ghost var bound := model.(index := model.index[key := entry.claim],
                                entries := model.entries[entry.claim := Entry(Some(statusId), entry.handedOff)]);
      BoundIs(model, entry.claim, statusId, bound);
      ghost var before := pending;
      assert forall k | k in before :: (model.index[k] == entry.claim) == (before[k] == entry);
      entry.status := Some(statusId);
      assert forall k | k in before ::
          bound.entries[model.index[k]] == Entry(before[k].status, before[k].handedOff);
      pending := pending[key := entry];
      model := bound;
    }

    /** The section of a handoff that creates its task. */
    method BeginHandoff(claim: Claim) returns (ok: bool)
      requires Valid()
      modifies this`model, pending.Values
      ensures Valid() && (model, ok) == VoiceRegistry.BeginHandoff(old(model), claim)
    {
      hide Inv;
      BeginHandoffKeeps(model, claim);
      var entry := EntryForClaim(claim);
      OwnedMeansRegistered(model, claim);
      if entry == null || entry.status.None? || entry.handedOff {
        return false;
      }
      entry.handedOff := true;
      model := VoiceRegistry.BeginHandoff(model, claim).0;
      ok := true;
    }

    /** Pops the entry's voice key and status key, each only while it maps to the entry. */
    method RemoveEntry(entry: PendingVoice)
      requires Valid() && entry in pending.Values
      modifies this`pending, this`model
      ensures Valid() && entry.claim in old(model).entries
      ensures model == RemoveAll(old(model), {entry.claim})
      ensures pending.Values == old(pending.Values) - {entry}
    {
      hide Inv, Shares;
      ghost var before := pending;
      SharesKeys(pending, model.index);
      RemoveAllKeeps(model, {entry.claim});
      EntryKeys(entry);
      PopKeys(entry);
      assert forall k :: k in pending <==> k in model.index && model.index[k] != entry.claim;
      SharesFewer(before, model.index, pending, RemoveAll(model, {entry.claim}).index);
      model := RemoveAll(model, {entry.claim});
      ValuesWithout(before, pending, entry);
    }

    method PopKeys(entry: PendingVoice)
      modifies this`pending
      ensures forall k :: k in pending <==>
                k in old(pending) && !(k in KeysOf(entry.claim, Entry(entry.status, false)) && old(pending)[k] == entry)
      ensures forall k | k in pending :: pending[k] == old(pending)[k]
    {
      var voiceKey := (entry.claim.scope, entry.claim.voiceId);
      if voiceKey in pending && pending[voiceKey] == entry {
        pending := pending - {voiceKey};
      }
      if entry.status.None? {
        return;
      }
      var statusKey := (entry.claim.scope, entry.status.value);
      if statusKey in pending && pending[statusKey] == entry {
        pending := pending - {statusKey};
      }
    }

    /** An entry sits under exactly the keys of its claim. */
    lemma {:induction false} EntryKeys(entry: PendingVoice)
      requires Valid() && entry in pending.Values
      ensures entry.claim in model.entries
      ensures forall k :: (k in pending && pending[k] == entry) <==> k in KeysOf(entry.claim, model.entries[entry.claim])
      ensures forall k :: (k in pending && pending[k] == entry) <==> (k in model.index && model.index[k] == entry.claim)
      ensures model.entries[entry.claim].status == entry.status
    {
      var at :| at in pending && pending[at] == entry;
      ExactKeys(model, entry.claim);
    }

    /** The end of a handoff, and a discard: take the claim if it is still owned. */
    method TakeIfOwned(claim: Claim) returns (ok: bool, hadTask: bool)
      requires Valid()
      modifies this`pending, this`model
      ensures Valid() && (model, ok) == VoiceRegistry.TakeIfOwned(old(model), claim)
      ensures ok <==> claim in old(model).entries
      ensures ok ==> hadTask == old(model).entries[claim].handedOff
    {
      hide Inv;
      TakeKeeps(model, claim);
      var entry := EntryForClaim(claim);
      OwnedMeansRegistered(model, claim);
      if entry == null {
        return false, false;
      }
      RemoveIsRemoveAll(model, claim);
      hadTask := entry.handedOff;
      RemoveEntry(entry);
      ok := true;
    }

    method ProtectClaim(current: Option<Claim>)
      requires Valid()
      modifies this`active, this`model
      ensures Valid() && model == Protect(old(model), current)
    {
      ProtectKeeps(model, current);
      if current.None? {
        return;
      }
      var c := current.value;
      active := active[c := (if c in active then active[c] else 0) + 1];
      model := Protect(model, current);
    }

    method UnprotectClaim(current: Option<Claim>)
      requires Valid() && (current.Some? ==> current.value in active && active[current.value] > 0)
      modifies this`active, this`model
      ensures Valid() && model == Unprotect(old(model), current)
    {
      ProtectKeeps(model, current);
      if current.None? {
        return;
      }
      var c := current.value;
      var remaining := active[c] - 1;
      if remaining > 0 {
        active := active[c := remaining];
      } else {
        active := active - {c};
      }
      model := Unprotect(model, current);
    }

    predicate IsExcluded(entry: PendingVoice, current: Option<Claim>)
      reads this`active
    {
      Some(entry.claim) == current || (entry.claim in active && active[entry.claim] > 0)
    }

    /** The section of `cancel`: take the note under a reply id unless it is excluded. */
    method CancelReply(scope: Scope, replyId: Id, current: Option<Claim>) returns (result: Option<Cancellation>)
      requires Valid()
      modifies this`pending, this`model
      ensures Valid() && model == RemoveAll(old(model), Taken(old(model), Reply(scope, replyId), current))
      ensures result.None? <==> Taken(old(model), Reply(scope, replyId), current) == {}
      ensures result.Some? ==>
                var c := old(model).index[(scope, replyId)];
                && Taken(old(model), Reply(scope, replyId), current) == {c}
                && result.value == CancellationFor(c, old(model).entries[c], Some(replyId))
    {
      hide Inv, Taken;
      var key := (scope, replyId);
      ReplyTaken(model, scope, replyId, current);
      if key !in pending || IsExcluded(pending[key], current) {
        assert RemoveAll(model, {}).index == model.index;
        return None;
      }
      var entry := pending[key];
      var deletes := {entry.claim.voiceId};
      if replyId != entry.claim.voiceId {
        deletes := {};
      }
      if entry.status.Some? {
        deletes := deletes + {entry.status.value};
      }
      result := Some(Cancellation(entry.claim.scope, entry.claim.voiceId, entry.status, deletes));
      RemoveEntry(entry);
    }

    /** The section of a scope-wide or global cancel: take every note not excluded. */
    method CancelMatching(scope: Option<Scope>, current: Option<Claim>) returns (entries: set<PendingVoice>)
      requires Valid()
      modifies this`pending, this`model
      ensures var target := if scope.Some? then WholeScope(scope.value) else Everything;
              && Valid() && model == RemoveAll(old(model), Taken(old(model), target, current))
              && ClaimsOf(entries) == Taken(old(model), target, current)
      ensures forall e | e in entries :: e.claim in old(model).entries
                && old(model).entries[e.claim] == Entry(e.status, e.handedOff)
    {
      hide Inv, Taken;
      ghost var target := if scope.Some? then WholeScope(scope.value) else Everything;
      ghost var before := model;
      entries := set k | k in pending && (scope.None? || k.0 == scope.value) && !IsExcluded(pending[k], current) :: pending[k];
      SelectedAreTaken(scope, target, current, entries);
      RemoveEntries(entries);
    }

    method RemoveEntries(entries: set<PendingVoice>)
      requires Valid() && entries <= pending.Values
      modifies this`pending, this`model
      ensures Valid() && model == RemoveAll(old(model), ClaimsOf(entries))
    {
      hide Inv, ClaimsOf, RemoveAll;
      ghost var before := model;
      RemoveNone(model);
      var rest := entries;
      assert entries - rest == {};
      while rest != {}
        invariant rest <= entries && rest <= pending.Values
        invariant Valid() && model == RemoveAll(before, ClaimsOf(entries - rest))
        decreases rest
      {
        var e :| e in rest;
        RemoveEntry(e);
        RemoveAllTwice(before, ClaimsOf(entries - rest), {e.claim});
        ClaimsOfAdd(entries - rest, e);
        assert entries - (rest - {e}) == (entries - rest) + {e};
        rest := rest - {e};
      }
      assert entries - rest == entries;
    }

    lemma {:induction false} SelectedAreTaken(scope: Option<Scope>, target: Target, current: Option<Claim>, entries: set<PendingVoice>)
      requires Valid() && target == if scope.Some? then WholeScope(scope.value) else Everything
      requires entries == set k | k in pending && (scope.None? || k.0 == scope.value) && !IsExcluded(pending[k], current) :: pending[k]
      ensures forall e | e in entries :: e.claim in Taken(model, target, current)
      ensures entries <= pending.Values && ClaimsOf(entries) == Taken(model, target, current)
      ensures forall e | e in entries :: e.claim in model.entries && model.entries[e.claim] == Entry(e.status, e.handedOff)
    {
      hide Inv;
      var taken := Taken(model, target, current);
      forall e | e in entries
        ensures e.claim in taken && e in pending.Values
        ensures e.claim in model.entries && model.entries[e.claim] == Entry(e.status, e.handedOff)
      {
        var k :| k in pending && (scope.None? || k.0 == scope.value) && !IsExcluded(pending[k], current) && pending[k] == e;
        assert model.index[k] == e.claim && Hits(k, target);
      }
      forall c | c in taken ensures exists e :: e in entries && e.claim == c {
        var k :| k in model.index && Hits(k, target) && !Excluded(model, model.index[k], current) && model.index[k] == c;
        assert pending[k] in entries;
      }
    }
  }

  lemma {:induction false} ReplyTaken(r: Registry, scope: Scope, replyId: Id, current: Option<Claim>)
    ensures var key := (scope, replyId);
            Taken(r, Reply(scope, replyId), current) ==
            if key in r.index && !Excluded(r, r.index[key], current) then {r.index[key]} else {}
  {
  }

  lemma {:induction false} ExactKeys(r: Registry, c: Claim)
    requires Inv(r) && c in r.entries
    ensures forall k :: (k in r.index && r.index[k] == c) <==> k in KeysOf(c, r.entries[c])
  {
  }

  /** Registering a value again under another key adds no value. */
  lemma {:induction false} SameValues(m: map<Key, PendingVoice>, key: Key, at: Key)
    requires at in m && (key in m ==> m[key] == m[at])
    ensures m[key := m[at]].Values == m.Values
  {
    var m' := m[key := m[at]];
    assert m'[at] == m[at];
    forall e | e in m.Values ensures e in m'.Values {
      var k :| k in m && m[k] == e;
      assert m'[k] == e;
    }
  }

  lemma {:induction false} ValuesWithout(m: map<Key, PendingVoice>, m': map<Key, PendingVoice>, entry: PendingVoice)
    requires forall k :: k in m' <==> k in m && m[k] != entry
    requires forall k | k in m' :: m'[k] == m[k]
    ensures m'.Values == m.Values - {entry}
  {
    forall e | e in m.Values && e != entry ensures e in m'.Values {
      var k :| k in m && m[k] == e;
      assert k in m' && m'[k] == e;
    }
  }

  lemma {:induction false} RemoveAllTwice(r: Registry, a: set<Claim>, b: set<Claim>)
    ensures RemoveAll(RemoveAll(r, a), b) == RemoveAll(r, a + b)
  {
    assert RemoveAll(RemoveAll(r, a), b).index == RemoveAll(r, a + b).index;
    assert RemoveAll(RemoveAll(r, a), b).entries == RemoveAll(r, a + b).entries;
  }
}
