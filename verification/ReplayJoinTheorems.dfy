/** What a joined message looks like. */
module ReplayJoinTheorems {
  import opened Common
  import opened ReplayRecords
  import opened ReplayJoin

  // ----- halves and pairs -----

  ghost predicate IsPair(s: seq<Sight>, a: nat, f: nat) {
    a < f < |s| && s[a].Half? && s[f].Half? && s[a].group == s[f].group && s[a].part.Anchor? && s[f].part.Final?
  }

  lemma {:induction false} HalfIsWhereFound(s: seq<Sight>, i: nat)
    requires Joinable(s) && i < |s| && s[i].Half?
    ensures Find(s, s[i].group, s[i].part, |s|) == Some(i)
  {
    hide Find;
    var at := Find(s, s[i].group, s[i].part, |s|);
    assert IsHalf(s[i], s[i].group, s[i].part);
    if at.value < i {
      assert false;
    } else if i < at.value {
      assert false;
    }
  }

  /** A final is absorbed exactly when it completes a pair. */
  lemma {:induction false} AbsorbedIsPaired(s: seq<Sight>, i: nat)
    requires Joinable(s) && i < |s|
    ensures Absorbed(s, i) <==> exists a: nat :: IsPair(s, a, i)
  {
    hide Find;
    if Absorbed(s, i) {
      var a := Find(s, s[i].group, Anchor, |s|).value;
      if a > i {
        assert false;
      }
      assert IsPair(s, a, i);
    }
    if a: nat :| IsPair(s, a, i) {
      assert IsHalf(s[a], s[i].group, Anchor);
    }
  }

  /** Each anchor meets at most one final and each final at most one anchor. */
  lemma {:induction false} PairsAreDisjoint(s: seq<Sight>, a: nat, f: nat, a2: nat, f2: nat)
    requires Joinable(s) && IsPair(s, a, f) && IsPair(s, a2, f2) && (a == a2 || f == f2)
    ensures a == a2 && f == f2
  {
    hide Find;
    HalfIsWhereFound(s, a);
    HalfIsWhereFound(s, a2);
    HalfIsWhereFound(s, f);
    HalfIsWhereFound(s, f2);
  }

  ghost function Pairs(s: seq<Sight>, n: nat): set<(nat, nat)>
    requires n <= |s|
  {
    set a: nat, f: nat | 0 <= a < n && 0 <= f < n && IsPair(s, a, f) :: (a, f)
  }

  function AbsorbedBefore(s: seq<Sight>, n: nat): (k: nat)
    requires n <= |s|
    ensures k <= n
  {
    if n == 0 then 0 else AbsorbedBefore(s, n - 1) + (if Absorbed(s, n - 1) then 1 else 0)
  }

  lemma {:induction false} AbsorbedCountsPairs(s: seq<Sight>, n: nat)
    requires Joinable(s) && n <= |s|
    ensures AbsorbedBefore(s, n) == |Pairs(s, n)|
  {
    hide Joinable, Absorbed, IsPair;
    if n == 0 {
      assert Pairs(s, 0) == {};
    } else {
      AbsorbedCountsPairs(s, n - 1);
      AbsorbedIsPaired(s, n - 1);
      OnePairMore(s, n - 1);
    }
  }

  lemma {:induction false} OnePairMore(s: seq<Sight>, f: nat)
    requires Joinable(s) && f < |s|
    ensures |Pairs(s, f + 1)| == |Pairs(s, f)| + if exists a: nat :: IsPair(s, a, f) then 1 else 0
  {
    hide Joinable;
    if a: nat :| IsPair(s, a, f) {
      forall x: nat | IsPair(s, x, f) ensures x == a {
        PairsAreDisjoint(s, a, f, x, f);
      }
      assert Pairs(s, f + 1) == Pairs(s, f) + {(a, f)};
      assert (a, f) !in Pairs(s, f);
    } else {
      assert Pairs(s, f + 1) == Pairs(s, f);
    }
  }

  // ----- length and positions -----

  lemma {:induction false} JoinedLength(t: JsonText, content: seq<Json>, s: seq<Sight>, n: nat)
    requires n <= |s| == |content|
    ensures |Joined(t, content, s, n)| == n - AbsorbedBefore(s, n)
  {
    hide Absorbed, Rewritten;
    if n > 0 {
      JoinedLength(t, content, s, n - 1);
    }
  }

  /** The result is shorter by one block for each pair, and by nothing else. */
  lemma {:induction false} LengthDropsByPairs(t: JsonText, content: seq<Json>)
    requires Resolve(t, content).Ok?
    ensures var s := Sights(t, content);
            |Resolve(t, content).value| == |content| - |Pairs(s, |s|)|
  {
    hide Joinable, FirstFault, AnyMisordered, Look;
    ResolvesIff(t, content);
    JoinedLength(t, content, Sights(t, content), |content|);
    AbsorbedCountsPairs(Sights(t, content), |content|);
  }

  /** Every surviving block keeps its place in order: it moves up by the pairs completed before it. */
  lemma {:induction false} BlocksKeepTheirOrder(t: JsonText, content: seq<Json>, s: seq<Sight>, n: nat, i: nat)
    requires i < n <= |s| == |content| && !Absorbed(s, i)
    ensures AbsorbedBefore(s, i) <= i && i - AbsorbedBefore(s, i) < |Joined(t, content, s, n)|
    ensures Joined(t, content, s, n)[i - AbsorbedBefore(s, i)] == Rewritten(t, content, s, i)
  {
    hide Absorbed, Rewritten;
    JoinedLength(t, content, s, n - 1);
    if i < n - 1 {
      BlocksKeepTheirOrder(t, content, s, n - 1, i);
    }
  }

  lemma {:induction false} EveryBlockHasASource(t: JsonText, content: seq<Json>, s: seq<Sight>, n: nat, k: nat) returns (i: nat)
    requires n <= |s| == |content| && k < |Joined(t, content, s, n)|
    ensures i < n && !Absorbed(s, i) && Joined(t, content, s, n)[k] == Rewritten(t, content, s, i)
  {
    hide Absorbed, Rewritten;
    if k < |Joined(t, content, s, n - 1)| {
      i := EveryBlockHasASource(t, content, s, n - 1, k);
    } else {
      i := n - 1;
    }
  }

  // ----- what a rewritten block carries -----

  /** The target's record and key come from decoded carriers, so writing cannot fail. */
  lemma {:induction false} JoinedRecordWritable(t: JsonText, content: seq<Json>, i: nat)
    requires Sound(t) && Joinable(Sights(t, content)) && i < |content| && Sights(t, content)[i].Half?
    ensures var s := Sights(t, content);
            var r := JoinedRecord(s, i);
            && Encode(t, r).Ok? && IsReplay(Str(Encode(t, r).value)) && Decode(t, Encode(t, r).value) == Ok(r)
  {
    hide Find, Encode, Decode, Copyable, Validate, BaseFields, Payload;
    var s := Sights(t, content);
    var h := HalfRecord(t, content[i]);
    var final := Find(s, s[i].group, Final, |s|);
    if final.Some? && final.value != i {
      assert InOrder(s[i], s[final.value]) || InOrder(s[final.value], s[i]);
      var f := HalfRecord(t, content[final.value]);
      JoinedIsWritable(t, h, f);
    } else {
      JoinedIsWritable(t, h, h);
    }
  }

  lemma {:induction false} HalfRecord(t: JsonText, block: Json) returns (r: Record)
    requires Sound(t) && Look(t, block).Half?
    ensures var s := Look(t, block); r == Associated(s.origin, s.native, s.group, s.part)
    ensures Writable(r)
  {
    hide Copyable, Validate, BaseFields, Payload, Writable;
    var text := block.fields[CarrierKey(block).value].s;
    r := Decode(t, text).value;
    DecodedIsWritable(t, text);
  }

  /** Rewriting a block's carrier changes that field only, and the block then shows the new record. */
  lemma {:induction false} RecodedShows(t: JsonText, block: Json, r: Record)
    requires Look(t, block).Half? && r.Plain?
    requires Encode(t, r).Ok? && IsReplay(Str(Encode(t, r).value)) && Decode(t, Encode(t, r).value) == Ok(r)
    ensures var key := Look(t, block).key;
            var after := Recoded(t, block, key, r);
            && after.Obj? && block.Obj? && after.fields == block.fields[key := Str(Encode(t, r).value)]
            && (key == "signature" || key == "data")
            && Look(t, after) == Complete(r.origin, r.native)
  {
    hide Encode, Decode, IsReplay;
    var after := Recoded(t, block, Look(t, block).key, r);
    assert Get(after.fields, "type") == Get(block.fields, "type");
  }

  /** An anchor whose final arrived carries the final's native state; any other half carries its own. */
  lemma {:induction false} SurvivorCarries(t: JsonText, content: seq<Json>, i: nat)
    requires Sound(t) && Joinable(Sights(t, content)) && i < |content| && Sights(t, content)[i].Half?
    ensures var s := Sights(t, content);
            var after := Rewritten(t, content, s, i);
            && (forall f: nat :: IsPair(s, i, f) ==> Look(t, after) == Complete(s[i].origin, s[f].native))
            && ((forall f: nat :: !IsPair(s, i, f)) ==> Look(t, after) == Complete(s[i].origin, s[i].native))
            && after.Obj? && content[i].Obj? && after.fields.Keys == content[i].fields.Keys
            && forall k | k in after.fields && k != s[i].key :: after.fields[k] == content[i].fields[k]
  {
    hide Encode, Decode, IsReplay, Look, Find;
    var s := Sights(t, content);
    JoinedRecordWritable(t, content, i);
    LookKey(t, content[i]);
    RecodedShows(t, content[i], JoinedRecord(s, i));
    var final := Find(s, s[i].group, Final, |s|);
    forall f: nat | IsPair(s, i, f) ensures final == Some(f) && s[i].origin == s[f].origin {
      HalfIsWhereFound(s, f);
      assert InOrder(s[i], s[f]);
    }
    if final.Some? && final.value != i {
      if final.value < i {
        assert false;
      }
      assert InOrder(s[i], s[final.value]);
      assert IsPair(s, i, final.value);
    }
  }

  lemma {:induction false} LookKey(t: JsonText, block: Json)
    requires Look(t, block).Half?
    ensures block.Obj? && Look(t, block).key in block.fields
  {
    hide Decode;
  }

  lemma {:induction false} NothingLeftToJoin(t: JsonText, content: seq<Json>, i: nat)
    requires Sound(t) && Joinable(Sights(t, content)) && i < |content|
    ensures var s := Sights(t, content);
            var after := Look(t, Rewritten(t, content, s, i)); after.Unmarked? || after.Complete?
  {
    hide Encode, Decode, IsReplay, Look, Find, JoinedRecord;
    var s := Sights(t, content);
    if s[i].Half? {
      JoinedRecordWritable(t, content, i);
      RecodedShows(t, content[i], JoinedRecord(s, i));
    }
  }

  // ----- main results -----

  /** After joining, no block carries half of an association, and every carrier can be read. */
  lemma {:induction false} NoHalvesRemain(t: JsonText, content: seq<Json>)
    requires Sound(t) && Resolve(t, content).Ok?
    ensures forall k | 0 <= k < |Resolve(t, content).value| ::
              var after := Look(t, Resolve(t, content).value[k]); after.Unmarked? || after.Complete?
  {
    hide Look, Joinable, FirstFault, AnyMisordered, Absorbed, Rewritten, Joined;
    ResolvesIff(t, content);
    var s := Sights(t, content);
    var out := Resolve(t, content).value;
    forall k | 0 <= k < |out| ensures var after := Look(t, out[k]); after.Unmarked? || after.Complete? {
      var i := EveryBlockHasASource(t, content, s, |s|, k);
      NothingLeftToJoin(t, content, i);
    }
  }

  lemma {:induction false} WholeMessageJoinsToItself(t: JsonText, content: seq<Json>, s: seq<Sight>, n: nat)
    requires n <= |s| == |content| && forall i | 0 <= i < |s| :: s[i].Unmarked? || s[i].Complete?
    ensures Joined(t, content, s, n) == content[..n]
  {
    hide Look, Find;
    if n > 0 {
      WholeMessageJoinsToItself(t, content, s, n - 1);
    }
  }

  /** Joining a joined message changes nothing. */
  lemma {:induction false} JoiningTwiceIsJoiningOnce(t: JsonText, content: seq<Json>)
    requires Sound(t) && Resolve(t, content).Ok?
    ensures Resolve(t, Resolve(t, content).value) == Resolve(t, content)
  {
    hide Look, FirstFault, AnyMisordered, Absorbed, Rewritten, Joined;
    var out := Resolve(t, content).value;
    NoHalvesRemain(t, content);
    ResolvesIff(t, out);
    var s := Sights(t, out);
    WholeMessageJoinsToItself(t, out, s, |s|);
    assert out[..|s|] == out;
  }

  /** A block that carries no half reappears unchanged, at its old place less the pairs completed before it. */
  lemma {:induction false} UnrelatedBlocksAreKept(t: JsonText, content: seq<Json>, i: nat)
    requires Resolve(t, content).Ok? && i < |content| && !Look(t, content[i]).Half?
    ensures var out := Resolve(t, content).value;
            var at := i - AbsorbedBefore(Sights(t, content), i);
            0 <= at < |out| && out[at] == content[i]
  {
    hide Look, FirstFault, AnyMisordered, Joined;
    BlocksKeepTheirOrder(t, content, Sights(t, content), |content|, i);
  }

  /** An anchor and its final become one block, at the anchor's place, with the final's native state. */
  lemma {:induction false} PairBecomesOneBlock(t: JsonText, content: seq<Json>, a: nat, f: nat)
    requires Sound(t) && Resolve(t, content).Ok? && IsPair(Sights(t, content), a, f)
    ensures var s := Sights(t, content);
            var out := Resolve(t, content).value;
            var at := a - AbsorbedBefore(s, a);
            && Absorbed(s, f) && !Absorbed(s, a) && 0 <= at < |out|
            && Look(t, out[at]) == Complete(s[a].origin, s[f].native)
  {
    hide Look, FirstFault, AnyMisordered, Joined, Joinable, Find, Rewritten;
    var s := Sights(t, content);
    ResolvesIff(t, content);
    AbsorbedIsPaired(s, f);
    BlocksKeepTheirOrder(t, content, s, |content|, a);
    SurvivorCarries(t, content, a);
  }
}
