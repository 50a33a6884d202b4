/** Joining late replay metadata within one assistant message. */
module ReplayJoin {
  import opened Common
  import opened ReplayRecords

  // ----- what the scan sees -----

  /** The field of a block that may hold a carrier. */
  function CarrierKey(block: Json): Option<string> {
    if !block.Obj? then None
    else if Get(block.fields, "type") == Str("thinking") then Some("signature")
    else if Get(block.fields, "type") == Str("redacted_thinking") then Some("data")
    else None
  }

  predicate HasCarrier(block: Json) {
    CarrierKey(block).Some? && IsReplay(Get(block.fields, CarrierKey(block).value))
  }

  /** What one block shows: no carrier, one that cannot be read, a complete one, or half of an association. */
  datatype Sight =
    | Unmarked
    | Unreadable(error: ReplayError)
    | Complete(origin: Origin, native: JsonObject)
    | Half(origin: Origin, native: JsonObject, group: string, part: Part, key: string)

  function Look(t: JsonText, block: Json): Sight {
    if !HasCarrier(block) then Unmarked
    else
      var key := CarrierKey(block).value;
      match Decode(t, block.fields[key].s)
      case Err(error) => Unreadable(error)
      case Ok(Plain(origin, native)) => Complete(origin, native)
      case Ok(Associated(origin, native, group, part)) => Half(origin, native, group, part, key)
  }

  function Sights(t: JsonText, content: seq<Json>): (s: seq<Sight>)
    ensures |s| == |content| && forall i | 0 <= i < |s| :: s[i] == Look(t, content[i])
  {
    seq(|content|, i requires 0 <= i < |content| => Look(t, content[i]))
  }

  predicate IsHalf(s: Sight, group: string, part: Part) {
    s.Half? && s.group == group && s.part == part
  }

  /** Where the first `n` blocks last carry this half. */
  function Find(s: seq<Sight>, group: string, part: Part, n: nat): (r: Option<nat>)
    requires n <= |s|
    ensures r.Some? ==> r.value < n && IsHalf(s[r.value], group, part)
    ensures r.None? ==> forall i | 0 <= i < n :: !IsHalf(s[i], group, part)
  {
    if n == 0 then None
    else if IsHalf(s[n - 1], group, part) then Some(n - 1)
    else Find(s, group, part, n - 1)
  }

  // ----- what the scan objects to -----

  /** The objection to block `i`, given the blocks before it. */
  function FaultAt(s: seq<Sight>, i: nat): Option<ReplayError>
    requires i < |s|
  {
    match s[i]
    case Unreadable(error) => Some(error)
    case Half(origin, _, group, part, key) =>
      var anchor, final := Find(s, group, Anchor, i), Find(s, group, Final, i);
      if || (part.Anchor? && anchor.Some?) || (part.Final? && final.Some?)
         || (anchor.Some? && s[anchor.value].origin != origin) || (final.Some? && s[final.value].origin != origin) then
        Some(ConflictingAssociation)
      else if part.Final? && key != "data" then Some(FinalNeedsRedacted)
      else None
    case _ => None
  }

  function FirstFault(s: seq<Sight>, n: nat): Option<ReplayError>
    requires n <= |s|
  {
    if n == 0 then None
    else if FirstFault(s, n - 1).Some? then FirstFault(s, n - 1)
    else FaultAt(s, n - 1)
  }

  predicate Misordered(s: seq<Sight>, group: string) {
    var anchor, final := Find(s, group, Anchor, |s|), Find(s, group, Final, |s|);
    anchor.Some? && final.Some? && anchor.value >= final.value
  }

  ghost predicate AnyMisordered(s: seq<Sight>) {
    exists group :: Misordered(s, group)
  }

  // ----- the joined message -----

  /** A final half whose anchor is in the message; it is absorbed into the anchor's block. */
  predicate Absorbed(s: seq<Sight>, i: nat)
    requires i < |s|
  {
    s[i].Half? && s[i].part.Final? && Find(s, s[i].group, Anchor, |s|).Some?
  }

  /** The record a surviving half is rewritten to: the final's native state where there is one. */
  function JoinedRecord(s: seq<Sight>, i: nat): (r: Record)
    requires i < |s| && s[i].Half?
    ensures r.Plain?
  {
    var final := Find(s, s[i].group, Final, |s|);
    var target := if final.Some? then s[final.value] else s[i];
    Plain(target.origin, target.native)
  }

  function Recoded(t: JsonText, block: Json, key: string, r: Record): Json {
    var carrier := Encode(t, r);
    if carrier.Err? || !block.Obj? then block else Obj(block.fields[key := Str(carrier.value)])
  }

  function Rewritten(t: JsonText, content: seq<Json>, s: seq<Sight>, i: nat): Json
    requires i < |s| == |content|
  {
    if s[i].Half? then Recoded(t, content[i], s[i].key, JoinedRecord(s, i)) else content[i]
  }

  function Joined(t: JsonText, content: seq<Json>, s: seq<Sight>, n: nat): seq<Json>
    requires n <= |s| == |content|
  {
    if n == 0 then []
    else Joined(t, content, s, n - 1) + (if Absorbed(s, n - 1) then [] else [Rewritten(t, content, s, n - 1)])
  }

  ghost function Resolve(t: JsonText, content: seq<Json>): Result<seq<Json>, ReplayError> {
    var s := Sights(t, content);
    if FirstFault(s, |s|).Some? then Err(FirstFault(s, |s|).value)
    else if AnyMisordered(s) then Err(FinalPrecedesAnchor)
    else Ok(Joined(t, content, s, |s|))
  }

  // ----- when joining succeeds -----

  /** Two halves of one group in a message: an anchor, then a final of the same origin. */
  predicate InOrder(first: Sight, second: Sight)
    requires first.Half? && second.Half?
  {
    first.part.Anchor? && second.part.Final? && first.origin == second.origin
  }

  predicate Joinable(s: seq<Sight>) {
    && (forall i | 0 <= i < |s| :: !s[i].Unreadable?)
    && (forall i | 0 <= i < |s| && s[i].Half? && s[i].part.Final? :: s[i].key == "data")
    && (forall i, j | 0 <= i < j < |s| && s[i].Half? && s[j].Half? && s[i].group == s[j].group :: InOrder(s[i], s[j]))
  }

  lemma {:induction false} NoFaultMeans(s: seq<Sight>, n: nat)
    requires n <= |s|
    ensures FirstFault(s, n).None? <==> forall i | 0 <= i < n :: FaultAt(s, i).None?
  {
    hide FaultAt;
    if n > 0 {
      NoFaultMeans(s, n - 1);
    }
  }

  /** A message is joined exactly when its carriers decode, every final sits in a redacted block,
      and two blocks of one group are an anchor followed by a final of the same origin. */
  lemma {:induction false} ResolvesIff(t: JsonText, content: seq<Json>)
    ensures Resolve(t, content).Ok? <==> Joinable(Sights(t, content))
  {
    hide Joined, FaultAt, Misordered, Joinable, Find, Sights;
    var s := Sights(t, content);
    NoFaultMeans(s, |s|);
    if Resolve(t, content).Ok? {
      ResolvedIsJoinable(s);
    }
    if Joinable(s) {
      forall i | 0 <= i < |s| ensures FaultAt(s, i).None? {
        JoinableHasNoFault(s, i);
      }
      forall group ensures !Misordered(s, group) {
        JoinableIsOrdered(s, group);
      }
    }
  }

  lemma {:induction false} ResolvedIsJoinable(s: seq<Sight>)
    requires forall i | 0 <= i < |s| :: FaultAt(s, i).None?
    requires forall group :: !Misordered(s, group)
    ensures Joinable(s)
  {
    hide Find, Misordered;
    forall i | 0 <= i < |s| ensures !s[i].Unreadable? && (s[i].Half? && s[i].part.Final? ==> s[i].key == "data") {
      assert FaultAt(s, i).None?;
    }
    forall i, j | 0 <= i < j < |s| && s[i].Half? && s[j].Half? && s[i].group == s[j].group ensures InOrder(s[i], s[j]) {
      TwoHalves(s, i, j);
    }
  }

  lemma {:induction false} TwoHalves(s: seq<Sight>, i: nat, j: nat)
    requires i < j < |s| && s[i].Half? && s[j].Half? && s[i].group == s[j].group
    requires forall i | 0 <= i < |s| :: FaultAt(s, i).None?
    requires forall group :: !Misordered(s, group)
    ensures InOrder(s[i], s[j])
  {
    hide Find;
    var group := s[i].group;
    assert FaultAt(s, j).None?;
    assert IsHalf(s[i], group, s[i].part) && IsHalf(s[j], group, s[j].part);
    UniqueHalf(s, group, s[i].part, i, Find(s, group, s[i].part, j).value);
    if s[i].part.Final? && s[j].part.Anchor? {
      assert !Misordered(s, group);
      UniqueHalf(s, group, Anchor, j, Find(s, group, Anchor, |s|).value);
      UniqueHalf(s, group, Final, i, Find(s, group, Final, |s|).value);
      assert false;
    }
  }

  /** A faultless message has each half at most once. */
  lemma {:induction false} UniqueHalf(s: seq<Sight>, group: string, part: Part, i: nat, j: nat)
    requires i < |s| && j < |s|
    requires forall i | 0 <= i < |s| :: FaultAt(s, i).None?
    requires IsHalf(s[i], group, part) && IsHalf(s[j], group, part)
    ensures i == j
  {
    hide Find;
    assert FaultAt(s, i).None? && FaultAt(s, j).None?;
  }

  lemma {:induction false} JoinableHasNoFault(s: seq<Sight>, i: nat)
    requires Joinable(s) && i < |s|
    ensures FaultAt(s, i).None?
  {
    hide Find;
    if s[i].Half? {
      var anchor, final := Find(s, s[i].group, Anchor, i), Find(s, s[i].group, Final, i);
      assert anchor.Some? ==> InOrder(s[anchor.value], s[i]);
      if final.Some? {
        assert false;
      }
    }
  }

  lemma {:induction false} JoinableIsOrdered(s: seq<Sight>, group: string)
    requires Joinable(s)
    ensures !Misordered(s, group)
  {
    hide Find;
    var anchor, final := Find(s, group, Anchor, |s|), Find(s, group, Final, |s|);
    if anchor.Some? && final.Some? && anchor.value > final.value {
      assert false;
    }
  }

  // ----- what a refusal says -----

  /** An earlier block carries the same half of the block's group, or a half of another origin. */
  ghost predicate Conflicts(s: seq<Sight>, i: nat)
    requires i < |s|
  {
    s[i].Half? && exists j :: 0 <= j < i && s[j].Half? && s[j].group == s[i].group && (s[j].part == s[i].part || s[j].origin != s[i].origin)
  }

  /** The objection to a block: its carrier cannot be read, it conflicts with an earlier one, or it is a final outside a redacted
      block. */
  ghost function Objection(s: seq<Sight>, i: nat): Option<ReplayError>
    requires i < |s|
  {
    if s[i].Unreadable? then Some(s[i].error)
    else if Conflicts(s, i) then Some(ConflictingAssociation)
    else if s[i].Half? && s[i].part.Final? && s[i].key != "data" then Some(FinalNeedsRedacted)
    else None
  }

  lemma {:induction false} FaultIsObjection(s: seq<Sight>, i: nat)
    requires i < |s| && forall j | 0 <= j < i :: FaultAt(s, j).None?
    ensures FaultAt(s, i) == Objection(s, i)
  {
    hide Find;
    if s[i].Half? {
      var group := s[i].group;
      if Conflicts(s, i) {
        var j :| 0 <= j < i && s[j].Half? && s[j].group == group && (s[j].part == s[i].part || s[j].origin != s[i].origin);
        assert IsHalf(s[j], group, s[j].part);
        var k := Find(s, group, s[j].part, i).value;
        LastOfItsKind(s, group, s[j].part, j, k, i);
      } else {
        assert Find(s, group, Anchor, i).Some? ==> s[Find(s, group, Anchor, i).value].Half?;
        assert Find(s, group, Final, i).Some? ==> s[Find(s, group, Final, i).value].Half?;
      }
    }
  }

  lemma {:induction false} LastOfItsKind(s: seq<Sight>, group: string, part: Part, j: nat, k: nat, i: nat)
    requires j < i <= |s| && k < i && IsHalf(s[j], group, part) && IsHalf(s[k], group, part)
    requires forall n | 0 <= n < i :: FaultAt(s, n).None?
    ensures j == k
  {
    hide Find;
    assert FaultAt(s, j).None? && FaultAt(s, k).None?;
  }

  lemma {:induction false} FirstFaultAt(s: seq<Sight>, n: nat, i: nat)
    requires i < n <= |s| && FaultAt(s, i).Some? && forall j | 0 <= j < i :: FaultAt(s, j).None?
    ensures FirstFault(s, n) == FaultAt(s, i)
  {
    hide FaultAt;
    if i < n - 1 {
      FirstFaultAt(s, n - 1, i);
    } else {
      NoFaultMeans(s, i);
    }
  }

  /** A refusal names the objection to the first block there is one to, and otherwise that a final precedes its anchor. */
  lemma {:induction false} RefusalsAreExplained(t: JsonText, content: seq<Json>)
    ensures var s := Sights(t, content);
            && (forall i | 0 <= i < |s| && Objection(s, i).Some? && (forall j | 0 <= j < i :: Objection(s, j).None?) ::
                  Resolve(t, content) == Err(Objection(s, i).value))
            && (Resolve(t, content).Err? && (forall i | 0 <= i < |s| :: Objection(s, i).None?) ==>
                  Resolve(t, content) == Err(FinalPrecedesAnchor))
  {
    hide FaultAt, Objection, Joined, AnyMisordered, Sights;
    var s := Sights(t, content);
    forall i | 0 <= i < |s| && Objection(s, i).Some? && (forall j | 0 <= j < i :: Objection(s, j).None?)
      ensures Resolve(t, content) == Err(Objection(s, i).value)
    {
      NoObjectionMeans(s, i);
      FaultIsObjection(s, i);
      FirstFaultAt(s, |s|, i);
    }
    if forall i | 0 <= i < |s| :: Objection(s, i).None? {
      NoObjectionMeans(s, |s|);
      NoFaultMeans(s, |s|);
    }
  }

  lemma {:induction false} NoObjectionMeans(s: seq<Sight>, n: nat)
    requires n <= |s| && forall j | 0 <= j < n :: Objection(s, j).None?
    ensures forall j | 0 <= j < n :: FaultAt(s, j).None?
  {
    hide FaultAt, Objection;
    if n > 0 {
      NoObjectionMeans(s, n - 1);
      FaultIsObjection(s, n - 1);
    }
  }
}
