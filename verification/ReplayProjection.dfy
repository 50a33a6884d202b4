/** Projecting retained reasoning onto a destination, for the Responses and Messages wires. */
module ReplayProjection {
  import opened Common
  import opened ReplayRecords
  import opened ReadableReasoning

  // ----- one item -----

  predicate IsReasoning(wire: Protocol, item: Json) {
    item.Obj? &&
    if wire.Responses? then Get(item.fields, "type") == Str("reasoning")
    else Get(item.fields, "type") == Str("thinking") || Get(item.fields, "type") == Str("redacted_thinking")
  }

  function CarrierKeys(wire: Protocol): seq<string> {
    if wire.Responses? then ["encrypted_content"] else ["signature", "data"]
  }

  /** The first carrier among these fields. */
  function RecordIn(t: JsonText, item: JsonObject, keys: seq<string>): Result<Option<Record>, ReplayError> {
    if keys == [] then Ok(None)
    else if IsReplay(Get(item, keys[0])) then
      var decoded := Decode(t, Get(item, keys[0]).s);
      if decoded.Err? then Err(decoded.error) else Ok(Some(decoded.value))
    else RecordIn(t, item, keys[1..])
  }

  /** The carrier that decides is the first one; the others are not even read. */
  lemma {:induction false} FirstCarrierDecides(t: JsonText, item: JsonObject, keys: seq<string>, i: nat)
    requires i < |keys| && IsReplay(Get(item, keys[i])) && forall j | 0 <= j < i :: !IsReplay(Get(item, keys[j]))
    ensures var decoded := Decode(t, Get(item, keys[i]).s);
            RecordIn(t, item, keys) == if decoded.Err? then Err(decoded.error) else Ok(Some(decoded.value))
    decreases |keys|
  {
    hide IsReplay, Decode, Get;
    if i > 0 {
      assert !IsReplay(Get(item, keys[0]));
      FirstCarrierDecides(t, item, keys[1..], i - 1);
    }
  }

  /** Opaque state of an older history, which the upstream may still recognise. */
  predicate Sealed(wire: Protocol, item: JsonObject) {
    exists i :: 0 <= i < |CarrierKeys(wire)| && Truthy(Get(item, CarrierKeys(wire)[i]))
  }

  function Context(wire: Protocol, text: string): Json {
    if wire.Responses? then Obj(map["role" := Str("assistant"), "content" := Str(text)])
    else Obj(map["type" := Str("text"), "text" := Str(text)])
  }

  function Contexts(wire: Protocol, readings: seq<Reading>): (r: seq<Json>)
    ensures |r| == |readings| && forall i | 0 <= i < |r| :: r[i] == Context(wire, readings[i].text)
  {
    seq(|readings|, i requires 0 <= i < |readings| => Context(wire, readings[i].text))
  }

  function ReplayReadable(t: JsonText, item: JsonObject, record: Option<Record>): seq<Reading> {
    var native := if record.Some? then Readable(t, record.value.native) else [];
    if native != [] then native else Readable(t, item)
  }

  function ProjectItem(t: JsonText, destination: Origin, item: Json): Result<seq<Json>, ReplayError> {
    var wire := destination.protocol;
    if !IsReasoning(wire, item) then Ok([item])
    else
      var record := RecordIn(t, item.fields, CarrierKeys(wire));
      if record.Err? then Err(record.error)
      else if record.value.Some? && Accepts(destination, record.value.value.origin) then
        var native := record.value.value.native;
        Ok([Obj(native)] + (if Readable(t, native) == [] then Contexts(wire, Readable(t, item.fields)) else []))
      else if record.value.None? && Sealed(wire, item.fields) then Ok([item])
      else Ok(Contexts(wire, ReplayReadable(t, item.fields, record.value)))
  }

  function Project(t: JsonText, destination: Origin, items: seq<Json>, n: nat): Result<seq<Json>, ReplayError>
    requires n <= |items|
  {
    if n == 0 then Ok([])
    else
      var before := Project(t, destination, items, n - 1);
      if before.Err? then before
      else
        var last := ProjectItem(t, destination, items[n - 1]);
        if last.Err? then last else Ok(before.value + last.value)
  }

  // ----- the loop over items and over message blocks -----

  /** Appends each item as it is, as the native state it carries, or as readable context. */
  method ProjectItems(t: JsonText, destination: Origin, items: seq<Json>) returns (r: Result<seq<Json>, ReplayError>)
    ensures r == Project(t, destination, items, |items|)
  {
    hide Readable, RecordIn, Accepts, Sealed, IsReasoning;
    var wire := destination.protocol;
    var projected := [];
    for index := 0 to |items|
      invariant Project(t, destination, items, index) == Ok(projected)
    {
      var item := items[index];
      if !IsReasoning(wire, item) {
        projected := projected + [item];
        continue;
      }
      ReasoningIsObject(wire, item);
      var record := RecordIn(t, item.fields, CarrierKeys(wire));
      if record.Err? {
        ErrorStays(t, destination, items, index + 1, |items|);
        return Err(record.error);
      }
      if record.value.Some? && Accepts(destination, record.value.value.origin) {
        var native := record.value.value.native;
        var own := [Obj(native)];
        var readable := ReadReasoning(t, native);
        if readable == [] {
          var context := ReadReasoning(t, item.fields);
          own := own + Contexts(wire, context);
        }
        assert own == ProjectItem(t, destination, item).value;
        projected := projected + own;
        continue;
      }
      if record.value.None? && Sealed(wire, item.fields) {
        projected := projected + [item];
        continue;
      }
      projected := projected + Contexts(wire, ReplayReadable(t, item.fields, record.value));
    }
    r := Ok(projected);
  }

  lemma {:induction false} ReasoningIsObject(wire: Protocol, item: Json)
    requires IsReasoning(wire, item)
    ensures item.Obj?
  {
  }

  lemma {:induction false} ErrorStays(t: JsonText, destination: Origin, items: seq<Json>, m: nat, n: nat)
    requires m <= n <= |items| && Project(t, destination, items, m).Err?
    ensures Project(t, destination, items, n) == Project(t, destination, items, m)
  {
    hide ProjectItem;
    if m < n {
      ErrorStays(t, destination, items, m, n - 1);
    }
  }

  // ----- the whole body -----

  const KEPT_FIELDS := ["tool_calls", "reasoning_details", "reasoning_content", "reasoning", "extra_content"]

  predicate IsAssistant(message: Json) {
    message.Obj? && Get(message.fields, "role") == Str("assistant")
  }

  /** An assistant message with no blocks left and nothing else to say. */
  predicate Emptied(message: Json) {
    && IsAssistant(message) && Get(message.fields, "content") == Arr([])
    && forall i | 0 <= i < |KEPT_FIELDS| :: !Truthy(Get(message.fields, KEPT_FIELDS[i]))
  }

  function ProjectMessage(t: JsonText, destination: Origin, message: Json): Result<Json, ReplayError> {
    if !IsAssistant(message) || !Get(message.fields, "content").Arr? then Ok(message)
    else
      var content := Get(message.fields, "content").items;
      var projected := Project(t, destination, content, |content|);
      if projected.Err? then Err(projected.error) else Ok(Obj(message.fields["content" := Arr(projected.value)]))
  }

  function ProjectMessages(t: JsonText, destination: Origin, messages: seq<Json>, n: nat): Result<seq<Json>, ReplayError>
    requires n <= |messages|
  {
    if n == 0 then Ok([])
    else
      var before := ProjectMessages(t, destination, messages, n - 1);
      if before.Err? then before
      else
        var last := ProjectMessage(t, destination, messages[n - 1]);
        if last.Err? then Err(last.error) else Ok(before.value + [last.value])
  }

  function NotEmptied(messages: seq<Json>, n: nat): seq<Json>
    requires n <= |messages|
  {
    if n == 0 then []
    else NotEmptied(messages, n - 1) + (if Emptied(messages[n - 1]) then [] else [messages[n - 1]])
  }

  /** The items of a Responses body: a lone object counts as a list of one. */
  function InputItems(body: JsonObject): Option<seq<Json>> {
    match Get(body, "input")
    case Obj(_) => Some([Get(body, "input")])
    case Arr(items) => Some(items)
    case _ => None
  }

  function Prepare(t: JsonText, body: JsonObject, destination: Origin): Result<JsonObject, ReplayError> {
    if destination.protocol.Responses? then
      var items := InputItems(body);
      if items.None? then Ok(body)
      else
        var projected := Project(t, destination, items.value, |items.value|);
        if projected.Err? then Err(projected.error) else Ok(body["input" := Arr(projected.value)])
    else if !Get(body, "messages").Arr? then Ok(body)
    else
      var messages := Get(body, "messages").items;
      var projected := ProjectMessages(t, destination, messages, |messages|);
      if projected.Err? then Err(projected.error)
      else Ok(body["messages" := Arr(NotEmptied(projected.value, |projected.value|))])
  }

  method PrepareMessages(t: JsonText, destination: Origin, messages: seq<Json>) returns (r: Result<seq<Json>, ReplayError>)
    ensures r == ProjectMessages(t, destination, messages, |messages|)
  {
    hide Project, IsAssistant;
    var result := messages;
    for index := 0 to |messages|
      invariant |result| == |messages| && forall i | index <= i < |messages| :: result[i] == messages[i]
      invariant ProjectMessages(t, destination, messages, index) == Ok(result[..index])
    {
      var message := result[index];
      if IsAssistant(message) {
        AssistantIsObject(message);
        if Get(message.fields, "content").Arr? {
          var projected := ProjectItems(t, destination, Get(message.fields, "content").items);
          if projected.Err? {
            MessageErrorStays(t, destination, messages, index + 1, |messages|);
            return Err(projected.error);
          }
          result := result[index := Obj(message.fields["content" := Arr(projected.value)])];
        }
      }
      assert result[..index + 1] == result[..index] + [result[index]];
    }
    assert result[..|messages|] == result;
    r := Ok(result);
  }

  lemma {:induction false} AssistantIsObject(message: Json)
    requires IsAssistant(message)
    ensures message.Obj?
  {
  }

  lemma {:induction false} MessageErrorStays(t: JsonText, destination: Origin, messages: seq<Json>, m: nat, n: nat)
    requires m <= n <= |messages| && ProjectMessages(t, destination, messages, m).Err?
    ensures ProjectMessages(t, destination, messages, n) == ProjectMessages(t, destination, messages, m)
  {
    hide ProjectMessage;
    if m < n {
      MessageErrorStays(t, destination, messages, m, n - 1);
    }
  }

  /** Projects a fresh wire copy for a Responses or a Messages destination. */
  method PrepareHistory(t: JsonText, body: JsonObject, destination: Origin) returns (r: Result<JsonObject, ReplayError>)
    requires !destination.protocol.Chat?
    ensures r == Prepare(t, body, destination)
  {
    hide Project, ProjectMessages, Emptied;
    if destination.protocol.Responses? {
      var items := Get(body, "input");
      if items.Obj? {
        items := Arr([items]);
      }
      if !items.Arr? {
        return Ok(body);
      }
      var projected := ProjectItems(t, destination, items.items);
      return if projected.Err? then Err(projected.error) else Ok(body["input" := Arr(projected.value)]);
    }
    var messages := Get(body, "messages");
    if !messages.Arr? {
      return Ok(body);
    }
    var projected := PrepareMessages(t, destination, messages.items);
    if projected.Err? {
      return Err(projected.error);
    }
    var kept := [];
    for i := 0 to |projected.value|
      invariant kept == NotEmptied(projected.value, i)
    {
      if !Emptied(projected.value[i]) {
        kept := kept + [projected.value[i]];
      }
    }
    r := Ok(body["messages" := Arr(kept)]);
  }

  // ----- provenance -----

  /** Where an output element may come from. */
  ghost predicate Accounts(t: JsonText, destination: Origin, item: Json, out: Json) {
    var wire := destination.protocol;
    if !IsReasoning(wire, item) then out == item
    else
      match RecordIn(t, item.fields, CarrierKeys(wire))
      case Err(_) => false
      case Ok(None) => out == item || ContextFrom(wire, Readable(t, item.fields), out)
      case Ok(Some(record)) =>
        || (Accepts(destination, record.origin) && out == Obj(record.native))
        || ContextFrom(wire, ReplayReadable(t, item.fields, Some(record)), out)
  }

  ghost predicate ContextFrom(wire: Protocol, readings: seq<Reading>, out: Json) {
    exists r :: r in readings && out == Context(wire, r.text)
  }

  lemma {:induction false} ContextsComeFrom(wire: Protocol, readings: seq<Reading>, k: nat)
    requires k < |readings|
    ensures ContextFrom(wire, readings, Contexts(wire, readings)[k])
  {
    assert readings[k] in readings;
  }

  lemma {:induction false} ItemIsAccountedFor(t: JsonText, destination: Origin, item: Json, k: nat)
    requires ProjectItem(t, destination, item).Ok? && k < |ProjectItem(t, destination, item).value|
    ensures Accounts(t, destination, item, ProjectItem(t, destination, item).value[k])
  {
    hide Readable, RecordIn, Accepts, Sealed, ContextFrom, Context;
    var wire := destination.protocol;
    var out := ProjectItem(t, destination, item).value;
    if IsReasoning(wire, item) {
      var record := RecordIn(t, item.fields, CarrierKeys(wire)).value;
      if record.Some? && Accepts(destination, record.value.origin) {
        if k > 0 {
          ContextsComeFrom(wire, Readable(t, item.fields), k - 1);
        }
      } else if record.Some? || !Sealed(wire, item.fields) {
        ContextsComeFrom(wire, ReplayReadable(t, item.fields, record), k);
      }
    }
  }

  /** Native state reaches only a destination its origin is accepted by: every output element is an item
      without a carrier, an accepted carrier's native state, or readable text restated as context. */
  lemma {:induction false} NativeStateNeedsAcceptance(t: JsonText, destination: Origin, items: seq<Json>, n: nat, k: nat) returns (i: nat)
    requires n <= |items| && Project(t, destination, items, n).Ok? && k < |Project(t, destination, items, n).value|
    ensures i < n && Accounts(t, destination, items[i], Project(t, destination, items, n).value[k])
  {
    hide ProjectItem, Accounts;
    var before := Project(t, destination, items, n - 1).value;
    if k < |before| {
      i := NativeStateNeedsAcceptance(t, destination, items, n - 1, k);
    } else {
      i := n - 1;
      ItemIsAccountedFor(t, destination, items[i], k - |before|);
    }
  }

  // ----- order -----

  /** A later item adds to the output and disturbs nothing before it. */
  lemma {:induction false} OutputGrows(t: JsonText, destination: Origin, items: seq<Json>, m: nat, n: nat)
    requires m <= n <= |items| && Project(t, destination, items, n).Ok?
    ensures Project(t, destination, items, m).Ok?
    ensures Project(t, destination, items, m).value <= Project(t, destination, items, n).value
  {
    hide ProjectItem;
    if m < n {
      OutputGrows(t, destination, items, m, n - 1);
    }
  }

  ghost function PlaceOf(t: JsonText, destination: Origin, items: seq<Json>, i: nat): nat
    requires i <= |items| && Project(t, destination, items, i).Ok?
  {
    |Project(t, destination, items, i).value|
  }

  lemma {:induction false} OtherItemIsPlaced(t: JsonText, destination: Origin, items: seq<Json>, i: nat)
    requires Project(t, destination, items, |items|).Ok? && i < |items| && !IsReasoning(destination.protocol, items[i])
    ensures Project(t, destination, items, i).Ok? && Project(t, destination, items, i + 1).Ok?
    ensures PlaceOf(t, destination, items, i + 1) == PlaceOf(t, destination, items, i) + 1
    ensures var out := Project(t, destination, items, |items|).value;
            var p := PlaceOf(t, destination, items, i);
            p < |out| && out[p] == items[i]
  {
    hide IsReasoning;
    OutputGrows(t, destination, items, i + 1, |items|);
    OutputGrows(t, destination, items, i, i + 1);
    assert ProjectItem(t, destination, items[i]) == Ok([items[i]]);
    hide ProjectItem;
    var through := Project(t, destination, items, i + 1).value;
    assert through == Project(t, destination, items, i).value + [items[i]];
    assert through[PlaceOf(t, destination, items, i)] == items[i];
  }

  /** Items that are not reasoning come out unchanged and in their order. */
  lemma {:induction false} OtherItemsKeepTheirOrder(t: JsonText, destination: Origin, items: seq<Json>, i: nat, j: nat)
    requires Project(t, destination, items, |items|).Ok? && i < j < |items|
    requires !IsReasoning(destination.protocol, items[i]) && !IsReasoning(destination.protocol, items[j])
    ensures Project(t, destination, items, i).Ok? && Project(t, destination, items, j).Ok?
    ensures var out := Project(t, destination, items, |items|).value;
            var p, q := PlaceOf(t, destination, items, i), PlaceOf(t, destination, items, j);
            p < q < |out| && out[p] == items[i] && out[q] == items[j]
  {
    hide IsReasoning, Project, ProjectItem;
    OtherItemIsPlaced(t, destination, items, i);
    OtherItemIsPlaced(t, destination, items, j);
    OutputGrows(t, destination, items, i + 1, j);
  }

  // ----- what is said -----

  predicate IsContext(wire: Protocol, item: Json) {
    && item.Obj?
    && if wire.Responses? then
         item.fields.Keys == {"role", "content"} && item.fields["role"] == Str("assistant") && item.fields["content"].Str?
       else
         item.fields.Keys == {"type", "text"} && item.fields["type"] == Str("text") && item.fields["text"].Str?
  }

  /** What an output element says: a reasoning item its readings, a context item its text. */
  function Says(t: JsonText, wire: Protocol, item: Json): seq<string> {
    if IsReasoning(wire, item) then Texts(Readable(t, item.fields))
    else if IsContext(wire, item) then [item.fields[if wire.Responses? then "content" else "text"].s]
    else []
  }

  /** What an input item has to say: through its carrier's native state where that is readable. */
  function HasToSay(t: JsonText, wire: Protocol, item: Json): seq<string> {
    if !IsReasoning(wire, item) then Says(t, wire, item)
    else
      var record := RecordIn(t, item.fields, CarrierKeys(wire));
      Texts(ReplayReadable(t, item.fields, if record.Ok? then record.value else None))
  }

  function SaysAll(t: JsonText, wire: Protocol, items: seq<Json>): seq<string> {
    if items == [] then [] else Says(t, wire, items[0]) + SaysAll(t, wire, items[1..])
  }

  function HasToSayAll(t: JsonText, wire: Protocol, items: seq<Json>, n: nat): seq<string>
    requires n <= |items|
  {
    if n == 0 then [] else HasToSayAll(t, wire, items, n - 1) + HasToSay(t, wire, items[n - 1])
  }

  lemma {:induction false} SaysAppend(t: JsonText, wire: Protocol, xs: seq<Json>, ys: seq<Json>)
    ensures SaysAll(t, wire, xs + ys) == SaysAll(t, wire, xs) + SaysAll(t, wire, ys)
    decreases |xs|
  {
    hide Says;
    if xs == [] {
      assert xs + ys == ys;
    } else {
      SaysAppend(t, wire, xs[1..], ys);
      assert (xs + ys)[1..] == xs[1..] + ys;
    }
  }

  lemma {:induction false} SaysOne(t: JsonText, wire: Protocol, item: Json)
    ensures SaysAll(t, wire, [item]) == Says(t, wire, item)
  {
    hide Says;
    assert [item][1..] == [];
    assert SaysAll(t, wire, [item][1..]) == [];
  }

  lemma {:induction false} ContextSays(t: JsonText, wire: Protocol, text: string)
    ensures Says(t, wire, Context(wire, text)) == [text] && !IsReasoning(wire, Context(wire, text))
  {
    hide Readable;
  }

  lemma {:induction false} ContextsSay(t: JsonText, wire: Protocol, readings: seq<Reading>)
    ensures SaysAll(t, wire, Contexts(wire, readings)) == Texts(readings)
    decreases |readings|
  {
    hide Says, Context;
    if readings == [] {
      assert Contexts(wire, readings) == [] && Texts(readings) == [];
    } else {
      ContextsSay(t, wire, readings[1..]);
      assert Contexts(wire, readings)[1..] == Contexts(wire, readings[1..]);
      ContextSays(t, wire, readings[0].text);
      assert Texts(readings) == [readings[0].text] + Texts(readings[1..]);
    }
  }

  /** Native state accepted on a wire is itself a reasoning item of that wire. */
  lemma {:induction false} NativeIsReasoning(t: JsonText, item: JsonObject, keys: seq<string>, destination: Origin)
    requires RecordIn(t, item, keys).Ok? && RecordIn(t, item, keys).value.Some? && !destination.protocol.Chat?
    requires Accepts(destination, RecordIn(t, item, keys).value.value.origin)
    ensures IsReasoning(destination.protocol, Obj(RecordIn(t, item, keys).value.value.native))
    decreases |keys|
  {
    hide Carried, Validate, Legacy;
    if IsReplay(Get(item, keys[0])) {
      var s := Get(item, keys[0]).s;
      var carried := Carried(t, s[|Prefix(s).value|..]).value;
      ValidateInverse(if Prefix(s).value == LEGACY_PREFIX then Legacy(carried).value else carried, Prefix(s).value == ASSOCIATED_PREFIX);
    } else {
      NativeIsReasoning(t, item, keys[1..], destination);
    }
  }

  lemma {:induction false} ItemSaysTheSame(t: JsonText, destination: Origin, item: Json)
    requires ProjectItem(t, destination, item).Ok? && !destination.protocol.Chat?
    ensures SaysAll(t, destination.protocol, ProjectItem(t, destination, item).value) == HasToSay(t, destination.protocol, item)
  {
    hide Readable, RecordIn, Accepts, Sealed, IsReasoning;
    var wire := destination.protocol;
    SaysOne(t, wire, item);
    if IsReasoning(wire, item) {
      ReasoningIsObject(wire, item);
      var record := RecordIn(t, item.fields, CarrierKeys(wire)).value;
      if record.Some? && Accepts(destination, record.value.origin) {
        var native := record.value.native;
        NativeIsReasoning(t, item.fields, CarrierKeys(wire), destination);
        var rest := if Readable(t, native) == [] then Contexts(wire, Readable(t, item.fields)) else [];
        SaysAppend(t, wire, [Obj(native)], rest);
        SaysOne(t, wire, Obj(native));
        ContextsSay(t, wire, Readable(t, item.fields));
      } else if record.Some? || !Sealed(wire, item.fields) {
        ContextsSay(t, wire, ReplayReadable(t, item.fields, record));
      }
    }
  }

  /** Every readable text is still said, once and in order, natively or as context. */
  lemma {:induction false} EveryReadableTextIsSaid(t: JsonText, destination: Origin, items: seq<Json>, n: nat)
    requires n <= |items| && Project(t, destination, items, n).Ok? && !destination.protocol.Chat?
    ensures SaysAll(t, destination.protocol, Project(t, destination, items, n).value)
            == HasToSayAll(t, destination.protocol, items, n)
  {
    hide ProjectItem, Says, HasToSay;
    if n > 0 {
      EveryReadableTextIsSaid(t, destination, items, n - 1);
      ItemSaysTheSame(t, destination, items[n - 1]);
      SaysAppend(t, destination.protocol, Project(t, destination, items, n - 1).value, ProjectItem(t, destination, items[n - 1]).value);
    }
  }

  // ----- the messages of a body -----

  function ContentOf(message: Json): seq<Json> {
    if IsAssistant(message) && Get(message.fields, "content").Arr? then Get(message.fields, "content").items else []
  }

  function MessagesSay(t: JsonText, messages: seq<Json>, n: nat): seq<string>
    requires n <= |messages|
  {
    if n == 0 then [] else MessagesSay(t, messages, n - 1) + SaysAll(t, Messages, ContentOf(messages[n - 1]))
  }

  function MessagesHaveToSay(t: JsonText, messages: seq<Json>, n: nat): seq<string>
    requires n <= |messages|
  {
    if n == 0 then []
    else MessagesHaveToSay(t, messages, n - 1) + HasToSayAll(t, Messages, ContentOf(messages[n - 1]), |ContentOf(messages[n - 1])|)
  }

  lemma {:induction false} MessageSaysTheSame(t: JsonText, destination: Origin, message: Json)
    requires destination.protocol.Messages? && ProjectMessage(t, destination, message).Ok?
    ensures SaysAll(t, Messages, ContentOf(ProjectMessage(t, destination, message).value))
            == HasToSayAll(t, Messages, ContentOf(message), |ContentOf(message)|)
  {
    hide Project, SaysAll, HasToSayAll;
    if IsAssistant(message) && Get(message.fields, "content").Arr? {
      EveryReadableTextIsSaid(t, destination, ContentOf(message), |ContentOf(message)|);
    } else {
      EmptyProjects(t, destination);
    }
  }

  lemma {:induction false} EmptyProjects(t: JsonText, destination: Origin)
    ensures Project(t, destination, [], 0) == Ok([]) && HasToSayAll(t, destination.protocol, [], 0) == []
    ensures SaysAll(t, destination.protocol, []) == []
  {
  }

  lemma {:induction false} ProjectedMessagesSayTheSame(t: JsonText, destination: Origin, messages: seq<Json>, n: nat)
    requires destination.protocol.Messages? && n <= |messages| && ProjectMessages(t, destination, messages, n).Ok?
    ensures |ProjectMessages(t, destination, messages, n).value| == n
    ensures MessagesSay(t, ProjectMessages(t, destination, messages, n).value, n) == MessagesHaveToSay(t, messages, n)
  {
    hide ProjectMessage, ContentOf, SaysAll, HasToSayAll;
    if n > 0 {
      ProjectedMessagesSayTheSame(t, destination, messages, n - 1);
      MessageSaysTheSame(t, destination, messages[n - 1]);
      var before, after := ProjectMessages(t, destination, messages, n - 1).value, ProjectMessages(t, destination, messages, n).value;
      assert after[..n - 1] == before;
      SamePrefixSaysTheSame(t, before, after, n - 1);
    }
  }

  lemma {:induction false} SamePrefixSaysTheSame(t: JsonText, xs: seq<Json>, ys: seq<Json>, n: nat)
    requires n <= |xs| && n <= |ys| && xs[..n] == ys[..n]
    ensures MessagesSay(t, xs, n) == MessagesSay(t, ys, n)
  {
    hide ContentOf, SaysAll;
    if n > 0 {
      assert xs[n - 1] == xs[..n][n - 1] == ys[..n][n - 1] == ys[n - 1];
      assert xs[..n - 1] == xs[..n][..n - 1] == ys[..n][..n - 1] == ys[..n - 1];
      SamePrefixSaysTheSame(t, xs, ys, n - 1);
    }
  }

  lemma {:induction false} EmptiedMessagesSaidNothing(t: JsonText, messages: seq<Json>, n: nat)
    requires n <= |messages|
    ensures MessagesSay(t, NotEmptied(messages, n), |NotEmptied(messages, n)|) == MessagesSay(t, messages, n)
  {
    hide Emptied, ContentOf, SaysAll;
    if n > 0 {
      EmptiedMessagesSaidNothing(t, messages, n - 1);
      if Emptied(messages[n - 1]) {
        assert SaysAll(t, Messages, ContentOf(messages[n - 1])) == [] by {
          EmptiedSaysNothing(t, messages[n - 1]);
        }
        assert MessagesSay(t, messages, n) == MessagesSay(t, messages, n - 1);
        assert NotEmptied(messages, n) == NotEmptied(messages, n - 1);
      } else {
        var before, after := NotEmptied(messages, n - 1), NotEmptied(messages, n);
        assert after[..|before|] == before == before[..|before|];
        assert after[|after| - 1] == messages[n - 1];
        SamePrefixSaysTheSame(t, before, after, |before|);
      }
    }
  }

  lemma {:induction false} EmptiedSaysNothing(t: JsonText, message: Json)
    requires Emptied(message)
    ensures SaysAll(t, Messages, ContentOf(message)) == []
  {
  }

  /** A prepared Messages body says everything the original had to say, although emptied messages are gone. */
  lemma {:induction false} PreparedMessagesSayEverything(t: JsonText, body: JsonObject, destination: Origin)
    requires destination.protocol.Messages? && Prepare(t, body, destination).Ok? && Get(body, "messages").Arr?
    ensures var before := Get(body, "messages").items;
            var prepared := Get(Prepare(t, body, destination).value, "messages");
            && prepared.Arr?
            && MessagesSay(t, prepared.items, |prepared.items|) == MessagesHaveToSay(t, before, |before|)
            && forall m | m in prepared.items :: !Emptied(m)
  {
    hide ProjectMessages, NotEmptied, MessagesSay, MessagesHaveToSay, Emptied;
    var before := Get(body, "messages").items;
    var projected := ProjectMessages(t, destination, before, |before|).value;
    ProjectedMessagesSayTheSame(t, destination, before, |before|);
    EmptiedMessagesSaidNothing(t, projected, |projected|);
    NoneEmptied(projected, |projected|);
  }

  lemma {:induction false} NoneEmptied(messages: seq<Json>, n: nat)
    requires n <= |messages|
    ensures forall m | m in NotEmptied(messages, n) :: !Emptied(m)
  {
    hide Emptied;
    if n > 0 {
      NoneEmptied(messages, n - 1);
    }
  }
}
