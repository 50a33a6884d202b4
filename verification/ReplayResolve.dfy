/** The joining pass as it runs: one scan that files halves by group, one that rewrites targets. */
module ReplayResolve {
  import opened Common
  import opened ReplayRecords
  import opened ReplayJoin
  import opened ReplayJoinTheorems

  datatype Entry = Entry(index: nat, key: string, origin: Origin, native: JsonObject)

  type Groups = map<string, map<Part, Entry>>

  // ----- the filing cabinet and the scan agree -----

  function EntryAt(s: seq<Sight>, i: nat): Entry
    requires i < |s| && s[i].Half?
  {
    Entry(i, s[i].key, s[i].origin, s[i].native)
  }

  ghost predicate Files(group: map<Part, Entry>, s: seq<Sight>, name: string, n: nat)
    requires n <= |s|
  {
    forall part: Part ::
      && (part in group <==> Find(s, name, part, n).Some?)
      && (part in group ==> group[part] == EntryAt(s, Find(s, name, part, n).value))
  }

  ghost predicate Known(s: seq<Sight>, name: string, n: nat)
    requires n <= |s|
  {
    exists part: Part :: Find(s, name, part, n).Some?
  }

  ghost predicate Filed(groups: Groups, order: seq<string>, s: seq<Sight>, n: nat)
    requires n <= |s|
  {
    && (forall name :: name in groups <==> Known(s, name, n))
    && (forall name :: name in groups ==> Files(groups[name], s, name, n))
    && (forall name :: name in groups <==> name in order)
    && (forall i, j | 0 <= i < j < |order| :: order[i] != order[j])
  }

  predicate Conflicts(group: map<Part, Entry>, part: Part, origin: Origin) {
    part in group || exists p | p in group :: group[p].origin != origin
  }

  function GroupNamed(groups: Groups, name: string): map<Part, Entry> {
    if name in groups then groups[name] else map[]
  }

  lemma {:induction false} NothingFiled(s: seq<Sight>)
    ensures Filed(map[], [], s, 0)
  {
  }

  lemma {:induction false} FilesOf(groups: Groups, order: seq<string>, s: seq<Sight>, n: nat, name: string)
    requires n <= |s| && Filed(groups, order, s, n)
    ensures Files(GroupNamed(groups, name), s, name, n)
  {
    hide Find, Files;
    if name !in groups {
      forall part: Part ensures Find(s, name, part, n).None? {
        assert !Known(s, name, n);
      }
      EmptyFiles(s, name, n);
    }
  }

  lemma {:induction false} EmptyFiles(s: seq<Sight>, name: string, n: nat)
    requires n <= |s| && forall part: Part :: Find(s, name, part, n).None?
    ensures Files(map[], s, name, n)
  {
  }

  /** The check against the group on file is the scan's objection. */
  lemma {:induction false} ConflictIsFault(group: map<Part, Entry>, s: seq<Sight>, n: nat)
    requires n < |s| && s[n].Half? && Files(group, s, s[n].group, n)
    ensures FaultAt(s, n) == if Conflicts(group, s[n].part, s[n].origin) then Some(ConflictingAssociation)
                             else if s[n].part.Final? && s[n].key != "data" then Some(FinalNeedsRedacted)
                             else None
  {
    hide Find;
    var name := s[n].group;
    assert Anchor in group <==> Find(s, name, Anchor, n).Some?;
    assert Final in group <==> Find(s, name, Final, n).Some?;
  }

  lemma {:induction false} FilingOne(groups: Groups, order: seq<string>, s: seq<Sight>, n: nat)
    requires n < |s| && s[n].Half? && Filed(groups, order, s, n)
    ensures var name := s[n].group;
            var groups' := groups[name := GroupNamed(groups, name)[s[n].part := EntryAt(s, n)]];
            Filed(groups', if name in groups then order else order + [name], s, n + 1)
  {
    hide Files, Known;
    var name := s[n].group;
    var group := GroupNamed(groups, name);
    FilesOf(groups, order, s, n, name);
    FilesStep(group, s, name, n);
    var groups' := groups[name := group[s[n].part := EntryAt(s, n)]];
    var order' := if name in groups then order else order + [name];
    forall other ensures other in groups' <==> Known(s, other, n + 1)
      ensures other in groups' ==> Files(groups'[other], s, other, n + 1)
      ensures other in groups' <==> other in order'
    {
      if other != name {
        OtherFiles(groups, s, other, n);
      }
    }
  }

  lemma {:induction false} FilesStep(group: map<Part, Entry>, s: seq<Sight>, name: string, n: nat)
    requires n < |s| && s[n].Half? && s[n].group == name && Files(group, s, name, n)
    ensures Files(group[s[n].part := EntryAt(s, n)], s, name, n + 1) && Known(s, name, n + 1)
  {
    var group' := group[s[n].part := EntryAt(s, n)];
    forall part: Part
      ensures part in group' <==> Find(s, name, part, n + 1).Some?
      ensures part in group' ==> group'[part] == EntryAt(s, Find(s, name, part, n + 1).value)
    {
      assert Find(s, name, part, n + 1) == if part == s[n].part then Some(n) else Find(s, name, part, n);
    }
    assert Find(s, name, s[n].part, n + 1).Some?;
  }

  lemma {:induction false} OtherFiles(groups: Groups, s: seq<Sight>, name: string, n: nat)
    requires n < |s| && !(s[n].Half? && s[n].group == name)
    ensures Known(s, name, n + 1) == Known(s, name, n)
    ensures name in groups ==> Files(groups[name], s, name, n + 1) == Files(groups[name], s, name, n)
  {
    forall part: Part ensures Find(s, name, part, n + 1) == Find(s, name, part, n) {
    }
    hide Find;
    assert Known(s, name, n) ==> Known(s, name, n + 1) by {
      if part: Part :| Find(s, name, part, n).Some? {
        assert Find(s, name, part, n + 1).Some?;
      }
    }
    assert Known(s, name, n + 1) ==> Known(s, name, n) by {
      var m := n + 1;
      if part: Part :| Find(s, name, part, m).Some? {
        assert Find(s, name, part, n).Some?;
      }
    }
  }

  lemma {:induction false} PassingOver(groups: Groups, order: seq<string>, s: seq<Sight>, n: nat)
    requires n < |s| && !s[n].Half? && Filed(groups, order, s, n)
    ensures Filed(groups, order, s, n + 1)
  {
    hide Files, Known;
    forall name ensures name in groups <==> Known(s, name, n + 1)
      ensures name in groups ==> Files(groups[name], s, name, n + 1)
    {
      OtherFiles(groups, s, name, n);
    }
  }

  // ----- the scan -----

  /** Files every half by its group, objecting to the first block that does not fit. */
  method Scan(t: JsonText, blocks: seq<Json>) returns (r: Result<(Groups, seq<string>), ReplayError>)
    ensures var s := Sights(t, blocks);
            match r
            case Err(error) => FirstFault(s, |s|) == Some(error)
            case Ok((groups, order)) => FirstFault(s, |s|).None? && Filed(groups, order, s, |s|)
  {
    hide Decode, Filed, Find, FaultAt, Sights;
    var groups: Groups, order: seq<string> := map[], [];
    ghost var s := Sights(t, blocks);
    NothingFiled(s);
    for index := 0 to |blocks|
      invariant FirstFault(s, index).None? && Filed(groups, order, s, index)
    {
      var block := blocks[index];
      var key := CarrierKey(block);
      assert s[index] == Look(t, block);
      FaultIsFirst(s, index);
      if key.None? || !IsReplay(Get(block.fields, key.value)) {
        assert s[index].Unmarked?;
        PassingOver(groups, order, s, index);
        NoObjection(s, index);
        continue;
      }
      var record := Decode(t, Get(block.fields, key.value).s);
      if record.Err? {
        Objection(s, index);
        return Err(record.error);
      }
      if record.value.Plain? {
        PassingOver(groups, order, s, index);
        NoObjection(s, index);
        continue;
      }
      var name, part := record.value.group, record.value.part;
      var group := GroupNamed(groups, name);
      FilesOf(groups, order, s, index, name);
      ConflictIsFault(group, s, index);
      if Conflicts(group, part, record.value.origin) {
        return Err(ConflictingAssociation);
      }
      if part.Final? && key.value != "data" {
        return Err(FinalNeedsRedacted);
      }
      FilingOne(groups, order, s, index);
      order := if name in groups then order else order + [name];
      groups := groups[name := group[part := Entry(index, key.value, record.value.origin, record.value.native)]];
    }
    r := Ok((groups, order));
  }

  lemma {:induction false} FaultIsFirst(s: seq<Sight>, n: nat)
    requires n < |s| && FirstFault(s, n).None?
    ensures FirstFault(s, n + 1) == FaultAt(s, n)
    ensures FaultAt(s, n).Some? ==> FirstFault(s, |s|) == FaultAt(s, n)
  {
    hide FaultAt;
    if FaultAt(s, n).Some? {
      FaultStays(s, n + 1, |s|);
    }
  }

  lemma {:induction false} FaultStays(s: seq<Sight>, m: nat, n: nat)
    requires m <= n <= |s| && FirstFault(s, m).Some?
    ensures FirstFault(s, n) == FirstFault(s, m)
  {
    hide FaultAt;
    if m < n {
      FaultStays(s, m, n - 1);
    }
  }

  lemma {:induction false} NoObjection(s: seq<Sight>, n: nat)
    requires n < |s| && (s[n].Unmarked? || s[n].Complete?)
    ensures FaultAt(s, n).None?
  {
    hide Find;
  }

  lemma {:induction false} Objection(s: seq<Sight>, n: nat)
    requires n < |s| && s[n].Unreadable?
    ensures FaultAt(s, n) == Some(s[n].error)
  {
    hide Find;
  }

  // ----- rewriting -----

  /** The blocks once the groups in `done` have been settled. */
  ghost predicate Settled(t: JsonText, content: seq<Json>, s: seq<Sight>, done: seq<string>, blocks: seq<Json>, removed: set<nat>)
    requires |s| == |content|
  {
    && |blocks| == |content|
    && (forall i: nat | i < |content| ::
          blocks[i] == if s[i].Half? && s[i].group in done && !Absorbed(s, i) then Rewritten(t, content, s, i) else content[i])
    && (forall i: nat :: i in removed <==> i < |content| && Absorbed(s, i) && s[i].group in done)
  }

  ghost predicate Unique(s: seq<Sight>) {
    forall i | 0 <= i < |s| && s[i].Half? :: Find(s, s[i].group, s[i].part, |s|) == Some(i)
  }

  lemma {:induction false} FaultlessIsUnique(s: seq<Sight>)
    requires FirstFault(s, |s|).None?
    ensures Unique(s)
  {
    hide Find, FaultAt;
    NoFaultMeans(s, |s|);
    forall i | 0 <= i < |s| && s[i].Half? ensures Find(s, s[i].group, s[i].part, |s|) == Some(i) {
      assert IsHalf(s[i], s[i].group, s[i].part);
      UniqueHalf(s, s[i].group, s[i].part, i, Find(s, s[i].group, s[i].part, |s|).value);
    }
  }

  /** The block a group's state is written to, and the final it absorbs. */
  lemma {:induction false} SettleOne(t: JsonText, content: seq<Json>, s: seq<Sight>, done: seq<string>, blocks: seq<Json>,
                                     removed: set<nat>, name: string)
    requires |s| == |content| && Unique(s) && Settled(t, content, s, done, blocks, removed)
    requires name !in done && Known(s, name, |s|) && !Misordered(s, name)
    ensures var anchor, final := Find(s, name, Anchor, |s|), Find(s, name, Final, |s|);
            var target := if anchor.Some? then anchor.value else final.value;
            && target < |s| && blocks[target] == content[target]
            && Settled(t, content, s, done + [name], blocks[target := Rewritten(t, content, s, target)],
                       if anchor.Some? && final.Some? then removed + {final.value} else removed)
  {
    hide Find, Rewritten;
    var anchor, final := Find(s, name, Anchor, |s|), Find(s, name, Final, |s|);
    KnownHalf(s, name);
    var target := if anchor.Some? then anchor.value else final.value;
    var blocks' := blocks[target := Rewritten(t, content, s, target)];
    forall i: nat | i < |content|
      ensures blocks'[i] == if s[i].Half? && s[i].group in done + [name] && !Absorbed(s, i) then Rewritten(t, content, s, i) else content[i]
    {
      if s[i].Half? && s[i].group == name {
        assert Find(s, s[i].group, s[i].part, |s|) == Some(i);
      }
    }
    forall i: nat | i < |content| && s[i].Half? && s[i].group == name && Absorbed(s, i)
      ensures final == Some(i) && anchor.Some?
    {
      assert Find(s, s[i].group, s[i].part, |s|) == Some(i);
    }
  }

  lemma {:induction false} KnownHalf(s: seq<Sight>, name: string)
    requires Known(s, name, |s|)
    ensures Find(s, name, Anchor, |s|).Some? || Find(s, name, Final, |s|).Some?
  {
    hide Find;
    var part: Part :| Find(s, name, part, |s|).Some?;
    assert part == Anchor || part == Final;
  }

  /** Rewrites the target of each group in turn. */
  method Rewrite(t: JsonText, content: seq<Json>, groups: Groups, order: seq<string>)
    returns (r: Result<(seq<Json>, set<nat>), ReplayError>)
    requires Sound(t)
    requires var s := Sights(t, content); FirstFault(s, |s|).None? && Filed(groups, order, s, |s|)
    ensures var s := Sights(t, content);
            match r
            case Err(error) => error == FinalPrecedesAnchor && AnyMisordered(s)
            case Ok((blocks, removed)) => Settled(t, content, s, order, blocks, removed) && !AnyMisordered(s)
  {
    hide Encode, Decode, IsReplay, Look, Find, Sights, Settled, Unique, Copyable, Filed, FirstFault, FaultAt, Known;
    ghost var s := Sights(t, content);
    FaultlessIsUnique(s);
    var blocks, removed: set<nat> := content, {};
    NothingSettled(t, content, s);
    for n := 0 to |order|
      invariant |blocks| == |content| && Settled(t, content, s, order[..n], blocks, removed)
      invariant forall m | 0 <= m < n :: !Misordered(s, order[m])
    {
      var name := order[n];
      FiledGroup(groups, order, s, n);
      var group := groups[name];
      if Anchor in group && Final in group && group[Anchor].index >= group[Final].index {
        assert Misordered(s, name);
        return Err(FinalPrecedesAnchor);
      }
      assert !Misordered(s, name);
      SettleOne(t, content, s, order[..n], blocks, removed, name);
      assert order[..n] + [name] == order[..n + 1];
      var target := if Anchor in group then group[Anchor] else group[Final];
      var source := if Final in group then group[Final] else target;
      var record := Plain(source.origin, source.native);
      TargetRecord(t, content, s, name, target.index);
      var carrier := Encode(t, record);
      blocks := blocks[target.index := Obj(blocks[target.index].fields[target.key := Str(carrier.value)])];
      if Anchor in group && Final in group {
        removed := removed + {group[Final].index};
      }
    }
    assert order[..|order|] == order;
    NoneMisordered(groups, order, s);
    r := Ok((blocks, removed));
  }

  lemma {:induction false} NothingSettled(t: JsonText, content: seq<Json>, s: seq<Sight>)
    requires |s| == |content|
    ensures Settled(t, content, s, [], content, {})
  {
  }

  lemma {:induction false} FiledGroup(groups: Groups, order: seq<string>, s: seq<Sight>, n: nat)
    requires Filed(groups, order, s, |s|) && n < |order|
    ensures var name := order[n];
            && name in groups && Known(s, name, |s|) && name !in order[..n]
            && (forall part: Part :: (part in groups[name] <==> Find(s, name, part, |s|).Some?)
                  && (part in groups[name] ==> groups[name][part] == EntryAt(s, Find(s, name, part, |s|).value)))
            && (Anchor in groups[name] || Final in groups[name])
  {
    hide Find;
    var name := order[n];
    assert Files(groups[name], s, name, |s|);
    KnownHalf(s, name);
  }

  /** The record written for a group can be written, and is the one the specification names. */
  lemma {:induction false} TargetRecord(t: JsonText, content: seq<Json>, s: seq<Sight>, name: string, target: nat)
    requires Sound(t) && s == Sights(t, content) && FirstFault(s, |s|).None? && !Misordered(s, name) && target < |s|
    requires IsHalf(s[target], name, Anchor) || (IsHalf(s[target], name, Final) && Find(s, name, Anchor, |s|).None?)
    ensures Encode(t, JoinedRecord(s, target)).Ok? && content[target].Obj?
    ensures Rewritten(t, content, s, target)
            == Obj(content[target].fields[s[target].key := Str(Encode(t, JoinedRecord(s, target)).value)])
  {
    hide Encode, Decode, IsReplay, Find, Copyable, FaultAt, Misordered, Validate, BaseFields, Payload;
    NoFaultMeans(s, |s|);
    var h := HalfRecord(t, content[target]);
    var final := Find(s, name, Final, |s|);
    if IsHalf(s[target], name, Final) {
      UniqueHalf(s, name, Final, target, final.value);
    }
    if final.Some? && final.value != target {
      PairedOrigins(s, target, final.value);
      var f := HalfRecord(t, content[final.value]);
      JoinedIsWritable(t, h, f);
    } else {
      JoinedIsWritable(t, h, h);
    }
  }

  lemma {:induction false} PairedOrigins(s: seq<Sight>, i: nat, j: nat)
    requires i < |s| && j < |s| && i != j && s[i].Half? && s[j].Half? && s[i].group == s[j].group && s[i].part != s[j].part
    requires forall i | 0 <= i < |s| :: FaultAt(s, i).None?
    ensures s[i].origin == s[j].origin
  {
    hide Find;
    var low, high := if i < j then i else j, if i < j then j else i;
    assert FaultAt(s, high).None? && IsHalf(s[low], s[low].group, s[low].part);
    var before := Find(s, s[low].group, s[low].part, high);
    UniqueHalf(s, s[low].group, s[low].part, low, before.value);
  }

  lemma {:induction false} NoneMisordered(groups: Groups, order: seq<string>, s: seq<Sight>)
    requires Filed(groups, order, s, |s|) && forall m | 0 <= m < |order| :: !Misordered(s, order[m])
    ensures !AnyMisordered(s)
  {
    hide Find;
    forall name ensures !Misordered(s, name) {
      if name in order {
        var m :| 0 <= m < |order| && order[m] == name;
      } else {
        assert !Known(s, name, |s|);
        assert Find(s, name, Anchor, |s|).None?;
      }
    }
  }

  // ----- the whole pass -----

  method Keep(t: JsonText, ghost content: seq<Json>, ghost s: seq<Sight>, ghost order: seq<string>, blocks: seq<Json>, removed: set<nat>)
    returns (kept: seq<Json>)
    requires |s| == |content| && Settled(t, content, s, order, blocks, removed)
    requires forall i | 0 <= i < |s| && s[i].Half? :: s[i].group in order
    ensures kept == Joined(t, content, s, |s|)
  {
    hide Find, Recoded, JoinedRecord, Absorbed;
    kept := [];
    for index := 0 to |blocks|
      invariant kept == Joined(t, content, s, index)
    {
      if Absorbed(s, index) {
        AbsorbedIsHalf(s, index);
      }
      if index !in removed {
        kept := kept + [blocks[index]];
      }
    }
  }

  lemma {:induction false} AbsorbedIsHalf(s: seq<Sight>, i: nat)
    requires i < |s| && Absorbed(s, i)
    ensures s[i].Half?
  {
  }

  /** Joins late metadata within one assistant message, on a copy of its blocks. */
  method ResolveMessagesReplay(t: JsonText, content: seq<Json>) returns (r: Result<seq<Json>, ReplayError>)
    requires Sound(t)
    ensures r == Resolve(t, content)
  {
    hide Look, Find, Filed, Settled, FirstFault, Sights, Joined, Misordered;
    var scanned := Scan(t, content);
    if scanned.Err? {
      return Err(scanned.error);
    }
    var (groups, order) := scanned.value;
    var rewritten := Rewrite(t, content, groups, order);
    if rewritten.Err? {
      return Err(rewritten.error);
    }
    var (blocks, removed) := rewritten.value;
    GroupsAreOrdered(groups, order, Sights(t, content));
    var kept := Keep(t, content, Sights(t, content), order, blocks, removed);
    r := Ok(kept);
  }

  lemma {:induction false} GroupsAreOrdered(groups: Groups, order: seq<string>, s: seq<Sight>)
    requires Filed(groups, order, s, |s|)
    ensures forall i | 0 <= i < |s| && s[i].Half? :: s[i].group in order
  {
    hide Find, Files;
    forall i | 0 <= i < |s| && s[i].Half? ensures s[i].group in order {
      assert IsHalf(s[i], s[i].group, s[i].part);
      assert Find(s, s[i].group, s[i].part, |s|).Some?;
      assert Known(s, s[i].group, |s|);
    }
  }
}
