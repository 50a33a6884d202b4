/** What becomes of each item, block and message of a prepared history: where it stands, and as what. */
module ReplayFate {
  import opened Common
  import opened ReplayRecords
  import opened ReadableReasoning
  import opened ReplayProjection

  // ----- which carrier decides -----

  /** There is no carrier exactly when no field holds one. */
  lemma {:induction false} NoCarrierMeansNone(t: JsonText, item: JsonObject, keys: seq<string>)
    ensures RecordIn(t, item, keys) == Ok(None) <==> forall i | 0 <= i < |keys| :: !IsReplay(Get(item, keys[i]))
    decreases |keys|
  {
    hide IsReplay, Decode, Get;
    if keys != [] {
      if !IsReplay(Get(item, keys[0])) {
        NoCarrierMeansNone(t, item, keys[1..]);
        forall i | 1 <= i < |keys| ensures keys[i] == keys[1..][i - 1] {
        }
      }
    }
  }

  // ----- one item -----

  /** The item becomes these elements: they stand in the output at its place, and the next item's place is behind them. */
  ghost predicate Becomes(t: JsonText, destination: Origin, items: seq<Json>, i: nat, out: seq<Json>)
    requires i < |items|
  {
    && Project(t, destination, items, |items|).Ok? && Project(t, destination, items, i).Ok? && Project(t, destination, items, i + 1).Ok?
    && var all, place := Project(t, destination, items, |items|).value, PlaceOf(t, destination, items, i);
    && PlaceOf(t, destination, items, i + 1) == place + |out| <= |all|
    && all[place..place + |out|] == out
  }

  lemma {:induction false} ItemBecomes(t: JsonText, destination: Origin, items: seq<Json>, i: nat)
    requires i < |items| && Project(t, destination, items, |items|).Ok?
    ensures ProjectItem(t, destination, items[i]).Ok?
    ensures Becomes(t, destination, items, i, ProjectItem(t, destination, items[i]).value)
  {
    hide ProjectItem;
    OutputGrows(t, destination, items, i + 1, |items|);
    OutputGrows(t, destination, items, i, i + 1);
    StepOfProject(t, destination, items, i);
    hide Project;
    var all, before := Project(t, destination, items, |items|).value, Project(t, destination, items, i).value;
    var through, out := Project(t, destination, items, i + 1).value, ProjectItem(t, destination, items[i]).value;
    MiddleOf(all, before, out, through);
  }

  lemma {:induction false} StepOfProject(t: JsonText, destination: Origin, items: seq<Json>, i: nat)
    requires i < |items| && Project(t, destination, items, i + 1).Ok?
    ensures Project(t, destination, items, i).Ok? && ProjectItem(t, destination, items[i]).Ok?
    ensures Project(t, destination, items, i + 1).value == Project(t, destination, items, i).value + ProjectItem(t, destination, items[i]).value
  {
    hide ProjectItem;
  }

  lemma {:induction false} MiddleOf(all: seq<Json>, before: seq<Json>, out: seq<Json>, through: seq<Json>)
    requires through == before + out && through <= all
    ensures |before| + |out| <= |all| && all[|before|..|before| + |out|] == out
  {
    assert all[..|through|] == through;
  }

  /** An accepted carrier comes out as the native state it carries, at the item's place, followed by the item's own texts
      exactly when the native state has none to read. */
  lemma {:induction false} AcceptedStateComesOut(t: JsonText, destination: Origin, items: seq<Json>, i: nat, record: Record)
    requires i < |items| && Project(t, destination, items, |items|).Ok? && IsReasoning(destination.protocol, items[i])
    requires RecordIn(t, items[i].fields, CarrierKeys(destination.protocol)) == Ok(Some(record)) && Accepts(destination, record.origin)
    ensures Becomes(t, destination, items, i,
                    [Obj(record.native)]
                    + if Readable(t, record.native) == [] then Contexts(destination.protocol, Readable(t, items[i].fields)) else [])
  {
    hide Readable, RecordIn, Accepts, Sealed, IsReasoning, Context, Project, Becomes;
    ItemBecomes(t, destination, items, i);
  }

  /** Opaque state that is not a carrier stands in the output unchanged. */
  lemma {:induction false} OpaqueStateStands(t: JsonText, destination: Origin, items: seq<Json>, i: nat)
    requires i < |items| && Project(t, destination, items, |items|).Ok? && IsReasoning(destination.protocol, items[i])
    requires forall k | 0 <= k < |CarrierKeys(destination.protocol)| :: !IsReplay(Get(items[i].fields, CarrierKeys(destination.protocol)[k]))
    requires Sealed(destination.protocol, items[i].fields)
    ensures Becomes(t, destination, items, i, [items[i]])
  {
    hide Readable, RecordIn, Accepts, Sealed, IsReasoning, Context, Project, IsReplay, CarrierKeys, Get, Becomes;
    ReasoningIsObject(destination.protocol, items[i]);
    NoCarrierMeansNone(t, items[i].fields, CarrierKeys(destination.protocol));
    ItemBecomes(t, destination, items, i);
  }

  /** Any other reasoning item comes out as context alone: the texts of a carrier that is refused, or of the item where that has
      none or there is no carrier. */
  lemma {:induction false} OtherReasoningBecomesText(t: JsonText, destination: Origin, items: seq<Json>, i: nat, record: Option<Record>)
    requires i < |items| && Project(t, destination, items, |items|).Ok? && IsReasoning(destination.protocol, items[i])
    requires RecordIn(t, items[i].fields, CarrierKeys(destination.protocol)) == Ok(record)
    requires if record.Some? then !Accepts(destination, record.value.origin) else !Sealed(destination.protocol, items[i].fields)
    ensures var native := if record.Some? then Readable(t, record.value.native) else [];
            Becomes(t, destination, items, i,
                    Contexts(destination.protocol, if native != [] then native else Readable(t, items[i].fields)))
  {
    hide Readable, RecordIn, Accepts, Sealed, IsReasoning, Context, Project, Becomes;
    ItemBecomes(t, destination, items, i);
  }

  /** An item that is not reasoning stands in the output unchanged. */
  lemma {:induction false} OtherItemStands(t: JsonText, destination: Origin, items: seq<Json>, i: nat)
    requires i < |items| && Project(t, destination, items, |items|).Ok? && !IsReasoning(destination.protocol, items[i])
    ensures Becomes(t, destination, items, i, [items[i]])
  {
    hide Readable, RecordIn, Accepts, Sealed, IsReasoning, Context, Project, Becomes;
    ItemBecomes(t, destination, items, i);
  }

  /** An item whose deciding carrier cannot be read. */
  predicate Unreadable(t: JsonText, destination: Origin, item: Json) {
    IsReasoning(destination.protocol, item) && RecordIn(t, item.fields, CarrierKeys(destination.protocol)).Err?
  }

  lemma {:induction false} ItemFailsExactly(t: JsonText, destination: Origin, item: Json)
    ensures ProjectItem(t, destination, item).Err? <==> Unreadable(t, destination, item)
    ensures Unreadable(t, destination, item) ==> ProjectItem(t, destination, item) == Err(RecordError(t, destination, item))
  {
    hide Readable, RecordIn, Accepts, Sealed, Context;
  }

  /** The item is the first that cannot be read. */
  ghost predicate FirstUnreadable(t: JsonText, destination: Origin, items: seq<Json>, i: nat) {
    i < |items| && Unreadable(t, destination, items[i]) && forall j | 0 <= j < i :: !Unreadable(t, destination, items[j])
  }

  function RecordError(t: JsonText, destination: Origin, item: Json): ReplayError
    requires Unreadable(t, destination, item)
  {
    RecordIn(t, item.fields, CarrierKeys(destination.protocol)).error
  }

  /** Projecting fails exactly when some carrier that decides cannot be read, with the error of the first. */
  lemma {:induction false} FailsExactlyOnUnreadable(t: JsonText, destination: Origin, items: seq<Json>, n: nat)
    requires n <= |items|
    ensures Project(t, destination, items, n).Err? <==> exists i :: 0 <= i < n && Unreadable(t, destination, items[i])
    ensures forall i | 0 <= i < n && FirstUnreadable(t, destination, items, i) ::
              Project(t, destination, items, n) == Err(RecordError(t, destination, items[i]))
  {
    hide ProjectItem, Unreadable, RecordIn, IsReasoning, RecordError, CarrierKeys;
    if n > 0 {
      FailsExactlyOnUnreadable(t, destination, items, n - 1);
      ItemFailsExactly(t, destination, items[n - 1]);
    }
  }

  // ----- a Responses body -----

  ghost predicate Accounted(t: JsonText, destination: Origin, items: seq<Json>, out: Json) {
    exists i :: 0 <= i < |items| && Accounts(t, destination, items[i], out)
  }

  /** A prepared Responses body differs from the body in its `input` alone, and that is the projection of its items, a lone object
      being one item: they all have their say, once and in order, and each element comes from an item it may come from.  A
      body without items stays as it is. */
  lemma {:induction false} PreparedResponses(t: JsonText, body: JsonObject, destination: Origin)
    requires destination.protocol.Responses? && Prepare(t, body, destination).Ok?
    ensures var prepared, input := Prepare(t, body, destination).value, Get(body, "input");
            if !input.Obj? && !input.Arr? then prepared == body
            else
              var items := if input.Arr? then input.items else [input];
              && Project(t, destination, items, |items|).Ok?
              && var out := Project(t, destination, items, |items|).value;
              && prepared.Keys == body.Keys + {"input"} && prepared["input"] == Arr(out)
              && (forall key | key in body && key != "input" :: prepared[key] == body[key])
              && SaysAll(t, Responses, out) == HasToSayAll(t, Responses, items, |items|)
              && (forall k | 0 <= k < |out| :: Accounted(t, destination, items, out[k]))
  {
    hide Project, SaysAll, HasToSayAll, Accounts;
    var items := InputItems(body);
    if items.Some? {
      EveryReadableTextIsSaid(t, destination, items.value, |items.value|);
      var out := Project(t, destination, items.value, |items.value|).value;
      forall k | 0 <= k < |out| ensures Accounted(t, destination, items.value, out[k]) {
        var i := NativeStateNeedsAcceptance(t, destination, items.value, |items.value|, k);
      }
    }
  }

  /** A body is refused exactly when some item of it holds a carrier that cannot be read. */
  lemma {:induction false} ResponsesFailExactly(t: JsonText, body: JsonObject, destination: Origin)
    requires destination.protocol.Responses?
    ensures Prepare(t, body, destination).Err? <==>
              InputItems(body).Some? && exists i :: 0 <= i < |InputItems(body).value| && Unreadable(t, destination, InputItems(body).value[i])
  {
    hide Project, Unreadable;
    if InputItems(body).Some? {
      FailsExactlyOnUnreadable(t, destination, InputItems(body).value, |InputItems(body).value|);
    }
  }

  // ----- a Messages body -----

  /** An assistant message with a list of blocks, which is projected; any other is left as it is. */
  predicate HasBlocks(message: Json) {
    IsAssistant(message) && Get(message.fields, "content").Arr?
  }

  /** The projected message: its blocks projected, and every other field as it was. */
  ghost predicate ProjectsTo(t: JsonText, destination: Origin, message: Json, out: Json) {
    if !HasBlocks(message) then out == message
    else
      && out.Obj? && out.fields.Keys == message.fields.Keys
      && (forall key | key in message.fields && key != "content" :: out.fields[key] == message.fields[key])
      && Project(t, destination, ContentOf(message), |ContentOf(message)|) == Ok(ContentOf(out))
      && HasBlocks(out)
  }

  lemma {:induction false} MessageProjects(t: JsonText, destination: Origin, message: Json)
    requires ProjectMessage(t, destination, message).Ok?
    ensures ProjectsTo(t, destination, message, ProjectMessage(t, destination, message).value)
  {
    hide Project;
  }

  lemma {:induction false} MessagesProject(t: JsonText, destination: Origin, messages: seq<Json>, n: nat)
    requires n <= |messages| && ProjectMessages(t, destination, messages, n).Ok?
    ensures |ProjectMessages(t, destination, messages, n).value| == n
    ensures forall i | 0 <= i < n :: ProjectsTo(t, destination, messages[i], ProjectMessages(t, destination, messages, n).value[i])
  {
    hide ProjectMessage, ProjectsTo;
    if n > 0 {
      MessagesProject(t, destination, messages, n - 1);
      MessageProjects(t, destination, messages[n - 1]);
    }
  }

  /** Where a message that is kept stands among those kept. */
  lemma {:induction false} KeptInOrder(messages: seq<Json>, n: nat, i: nat)
    requires i < n <= |messages| && !Emptied(messages[i])
    ensures |NotEmptied(messages, i)| < |NotEmptied(messages, n)|
    ensures NotEmptied(messages, n)[|NotEmptied(messages, i)|] == messages[i]
    ensures |NotEmptied(messages, i + 1)| == |NotEmptied(messages, i)| + 1
  {
    hide Emptied;
    if i < n - 1 {
      KeptInOrder(messages, n - 1, i);
    }
  }

  /** Emptied is an assistant message whose block list is empty and which has no tool calls, no details of reasoning, no reasoning
      text of its own and no extra content. */
  lemma {:induction false} EmptiedExactly(message: Json)
    ensures Emptied(message) <==>
              && IsAssistant(message) && Get(message.fields, "content") == Arr([])
              && !Truthy(Get(message.fields, "tool_calls")) && !Truthy(Get(message.fields, "reasoning_details"))
              && !Truthy(Get(message.fields, "reasoning_content")) && !Truthy(Get(message.fields, "reasoning"))
              && !Truthy(Get(message.fields, "extra_content"))
  {
    hide Truthy, Get;
    assert KEPT_FIELDS[0] == "tool_calls" && KEPT_FIELDS[1] == "reasoning_details" && KEPT_FIELDS[2] == "reasoning_content"
           && KEPT_FIELDS[3] == "reasoning" && KEPT_FIELDS[4] == "extra_content";
  }

  lemma {:induction false} OnlyTheKept(messages: seq<Json>, n: nat, k: nat) returns (i: nat)
    requires n <= |messages| && k < |NotEmptied(messages, n)|
    ensures i < n && !Emptied(messages[i]) && k == |NotEmptied(messages, i)| && NotEmptied(messages, n)[k] == messages[i]
  {
    hide Emptied;
    if k < |NotEmptied(messages, n - 1)| {
      i := OnlyTheKept(messages, n - 1, k);
    } else {
      i := n - 1;
    }
  }

  /** What stands at a place among those kept is a message that is not emptied, with `k` such before it. */
  ghost predicate Stays(messages: seq<Json>, kept: seq<Json>, k: nat)
    requires k < |kept|
  {
    exists i :: 0 <= i < |messages| && !Emptied(messages[i]) && k == |NotEmptied(messages, i)| && kept[k] == messages[i]
  }

  /** A prepared Messages body differs from the body in its `messages` alone.  Each message is projected, block by block and with
      its other fields as they were, and those kept stand in their order; a message is dropped exactly when its projection is
      an assistant message with no blocks left and nothing else to say. */
  lemma {:induction false} PreparedMessages(t: JsonText, body: JsonObject, destination: Origin)
    requires destination.protocol.Messages? && Prepare(t, body, destination).Ok? && Get(body, "messages").Arr?
    ensures var prepared, messages := Prepare(t, body, destination).value, Get(body, "messages").items;
            && prepared.Keys == body.Keys && prepared["messages"].Arr?
            && (forall key | key in body && key != "messages" :: prepared[key] == body[key])
            && ProjectMessages(t, destination, messages, |messages|).Ok?
            && var out, kept := ProjectMessages(t, destination, messages, |messages|).value, prepared["messages"].items;
            && |out| == |messages|
            && (forall i | 0 <= i < |out| :: ProjectsTo(t, destination, messages[i], out[i]))
            && (forall i | 0 <= i < |out| && !Emptied(out[i]) ::
                  |NotEmptied(out, i)| < |kept| && kept[|NotEmptied(out, i)|] == out[i] && |NotEmptied(out, i + 1)| == |NotEmptied(out, i)| + 1)
            && (forall k | 0 <= k < |kept| :: Stays(out, kept, k))
  {
    hide ProjectMessages, Emptied, NotEmptied, ProjectsTo;
    var messages := Get(body, "messages").items;
    MessagesProject(t, destination, messages, |messages|);
    var out := ProjectMessages(t, destination, messages, |messages|).value;
    var kept := NotEmptied(out, |out|);
    forall i | 0 <= i < |out| && !Emptied(out[i])
      ensures |NotEmptied(out, i)| < |kept| && kept[|NotEmptied(out, i)|] == out[i] && |NotEmptied(out, i + 1)| == |NotEmptied(out, i)| + 1
    {
      KeptInOrder(out, |out|, i);
    }
    forall k | 0 <= k < |kept| ensures Stays(out, kept, k) {
      var i := OnlyTheKept(out, |out|, k);
    }
  }

  /** A Messages body is refused exactly when a block of an assistant message holds a carrier that cannot be read. */
  lemma {:induction false} MessagesFailExactly(t: JsonText, destination: Origin, messages: seq<Json>, n: nat)
    requires n <= |messages|
    ensures ProjectMessages(t, destination, messages, n).Err? <==> exists i :: 0 <= i < n && UnreadableWithin(t, destination, messages[i])
  {
    hide ProjectMessage, UnreadableWithin;
    if n > 0 {
      MessagesFailExactly(t, destination, messages, n - 1);
      MessageFailsExactly(t, destination, messages[n - 1]);
    }
  }

  predicate UnreadableWithin(t: JsonText, destination: Origin, message: Json) {
    HasBlocks(message) && exists k :: 0 <= k < |ContentOf(message)| && Unreadable(t, destination, ContentOf(message)[k])
  }

  lemma {:induction false} MessageFailsExactly(t: JsonText, destination: Origin, message: Json)
    ensures ProjectMessage(t, destination, message).Err? <==> UnreadableWithin(t, destination, message)
  {
    hide Project, Unreadable;
    FailsExactlyOnUnreadable(t, destination, ContentOf(message), |ContentOf(message)|);
  }
}
