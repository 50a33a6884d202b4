/** Carrying Responses reasoning into Messages blocks until the destination is prepared. */
module ReplayCarry {
  import opened Common
  import opened ReplayRecords
  import opened ReadableReasoning
  import opened ReplayProjection
  import Base64Url

  function TextBlocks(readings: seq<Reading>): seq<Json> {
    Contexts(Messages, readings)
  }

  function Thinking(text: Json, signature: string): Json {
    Obj(map["type" := Str("thinking"), "thinking" := text, "signature" := Str(signature)])
  }

  function Redacted(data: string): Json {
    Obj(map["type" := Str("redacted_thinking"), "data" := Str(data)])
  }

  /** The blocks a Responses reasoning item becomes in a Messages transcript. */
  function Carry(t: JsonText, item: JsonObject): Result<seq<Json>, ReplayError> {
    var readable := Readable(t, item);
    var carrier := Get(item, "encrypted_content");
    if !NonEmptyText(carrier) then Ok(TextBlocks(readable))
    else
      var record := RecordIn(t, item, ["encrypted_content"]);
      if record.Err? then Err(record.error)
      else if record.value.None? then
        if readable != [] || Truthy(Get(item, "content"))
        then Ok([Thinking(Str(JoinTexts("\n\n", Texts(readable))), carrier.s)])
        else Ok([Redacted(carrier.s)])
      else
        var native := record.value.value.native;
        if record.value.value.origin.protocol.Messages? && Get(native, "type") == Str("thinking")
        then Ok([Thinking(Get(native, "thinking"), carrier.s)])
        else if Readable(t, native) != [] then Ok([Redacted(carrier.s)])
        else Ok([Redacted(carrier.s)] + TextBlocks(readable))
  }

  method CarryIntoMessages(t: JsonText, item: JsonObject) returns (r: Result<seq<Json>, ReplayError>)
    ensures r == Carry(t, item)
  {
    hide Readable, RecordIn, JoinTexts;
    var blocks := [];
    var carrier := Get(item, "encrypted_content");
    if NonEmptyText(carrier) {
      var record := RecordIn(t, item, ["encrypted_content"]);
      if record.Err? {
        return Err(record.error);
      }
      if record.value.None? {
        var readable := ReadReasoning(t, item);
        if readable != [] || Truthy(Get(item, "content")) {
          return Ok([Thinking(Str(JoinTexts("\n\n", Texts(readable))), carrier.s)]);
        }
      }
      if record.value.Some? && record.value.value.origin.protocol.Messages?
         && Get(record.value.value.native, "type") == Str("thinking") {
        return Ok([Thinking(Get(record.value.value.native, "thinking"), carrier.s)]);
      }
      blocks := [Redacted(carrier.s)];
      if record.value.Some? {
        var native := ReadReasoning(t, record.value.value.native);
        if native != [] {
          return Ok(blocks);
        }
      }
    }
    var readable := ReadReasoning(t, item);
    assert readable == [] ==> TextBlocks(readable) == [];
    assert blocks == [] ==> blocks + TextBlocks(readable) == TextBlocks(readable);
    assert readable == [] ==> blocks + TextBlocks(readable) == blocks;
    r := Ok(blocks + TextBlocks(readable));
  }

  // ----- nothing is lost on the way -----

  lemma {:induction false} OneHasToSay(t: JsonText, wire: Protocol, item: Json)
    ensures HasToSayAll(t, wire, [item], 1) == HasToSay(t, wire, item)
  {
    hide HasToSay;
    assert HasToSayAll(t, wire, [item], 0) == [];
  }

  lemma {:induction false} MoreHaveToSay(t: JsonText, wire: Protocol, xs: seq<Json>, ys: seq<Json>, n: nat)
    requires n <= |ys|
    ensures HasToSayAll(t, wire, xs + ys, |xs| + n) == HasToSayAll(t, wire, xs, |xs|) + HasToSayAll(t, wire, ys, n)
  {
    hide HasToSay;
    if n == 0 {
      SamePrefixHasToSay(t, wire, xs, ys, |xs|);
    } else {
      MoreHaveToSay(t, wire, xs, ys, n - 1);
      assert (xs + ys)[|xs| + n - 1] == ys[n - 1];
    }
  }

  lemma {:induction false} SamePrefixHasToSay(t: JsonText, wire: Protocol, xs: seq<Json>, ys: seq<Json>, n: nat)
    requires n <= |xs|
    ensures HasToSayAll(t, wire, xs + ys, n) == HasToSayAll(t, wire, xs, n)
  {
    hide HasToSay;
    if n > 0 {
      SamePrefixHasToSay(t, wire, xs, ys, n - 1);
    }
  }

  lemma {:induction false} TextBlocksHaveToSay(t: JsonText, readings: seq<Reading>, n: nat)
    requires n <= |readings|
    ensures HasToSayAll(t, Messages, TextBlocks(readings), n) == Texts(readings[..n])
  {
    hide Readable, RecordIn, Context;
    if n == 0 {
      assert Texts(readings[..0]) == [];
    } else {
      TextBlocksHaveToSay(t, readings, n - 1);
      ContextSays(t, Messages, readings[n - 1].text);
      assert TextBlocks(readings)[n - 1] == Context(Messages, readings[n - 1].text);
      assert Texts(readings[..n]) == Texts(readings[..n - 1]) + [readings[n - 1].text];
    }
  }

  lemma {:induction false} RedactedHasToSay(t: JsonText, data: string)
    ensures IsReasoning(Messages, Redacted(data)) && Readable(t, Redacted(data).fields) == []
    ensures IsReplay(Str(data)) ==>
              RecordIn(t, Redacted(data).fields, CarrierKeys(Messages))
              == (if Decode(t, data).Err? then Err(Decode(t, data).error) else Ok(Some(Decode(t, data).value)))
    ensures !IsReplay(Str(data)) ==> RecordIn(t, Redacted(data).fields, CarrierKeys(Messages)) == Ok(None)
  {
    hide Decode;
    var item := Redacted(data).fields;
    var keys := CarrierKeys(Messages);
    assert keys[1..] == ["data"] && keys[1..][1..] == [];
    assert RecordIn(t, item, []) == Ok(None);
    assert RecordIn(t, item, keys) == RecordIn(t, item, keys[1..]);
    assert Represented([]) == Represented(Details(item));
  }

  lemma {:induction false} ThinkingHasToSay(t: JsonText, text: string, signature: string)
    requires Sound(t)
    ensures var block := Thinking(Str(text), signature);
            && IsReasoning(Messages, block)
            && Texts(Readable(t, block.fields)) == (if text == "" then [] else [text])
    ensures IsReplay(Str(signature)) ==>
              RecordIn(t, Thinking(Str(text), signature).fields, CarrierKeys(Messages))
              == (if Decode(t, signature).Err? then Err(Decode(t, signature).error) else Ok(Some(Decode(t, signature).value)))
    ensures !IsReplay(Str(signature)) ==> RecordIn(t, Thinking(Str(text), signature).fields, CarrierKeys(Messages)) == Ok(None)
  {
    hide Decode;
    var item := Thinking(Str(text), signature).fields;
    var keys := CarrierKeys(Messages);
    assert keys[1..] == ["data"] && keys[1..][1..] == [];
    assert RecordIn(t, item, []) == Ok(None);
    assert t.show(Str(text)) == text;
  }

  lemma {:induction false} BlockHolds(t: JsonText, text: Json, carrier: string)
    ensures IsReasoning(Messages, Thinking(text, carrier)) && IsReasoning(Messages, Redacted(carrier))
    ensures var record := if !IsReplay(Str(carrier)) then Ok(None)
                          else if Decode(t, carrier).Err? then Err(Decode(t, carrier).error) else Ok(Some(Decode(t, carrier).value));
            && RecordIn(t, Thinking(text, carrier).fields, CarrierKeys(Messages)) == record
            && RecordIn(t, Redacted(carrier).fields, CarrierKeys(Messages)) == record
    ensures carrier != "" ==> Sealed(Messages, Thinking(text, carrier).fields) && Sealed(Messages, Redacted(carrier).fields)
  {
    hide Decode, IsReplay;
    var keys := CarrierKeys(Messages);
    assert keys[1..] == ["data"] && keys[1..][1..] == [];
    var thinking, redacted := Thinking(text, carrier).fields, Redacted(carrier).fields;
    assert Get(thinking, "signature") == Str(carrier) && Get(redacted, "data") == Str(carrier);
    assert Get(thinking, "data") == Null && Get(redacted, "signature") == Null;
    NothingIsNoCarrier();
    assert RecordIn(t, thinking, []) == Ok(None) && RecordIn(t, redacted, []) == Ok(None);
    assert RecordIn(t, redacted, keys) == RecordIn(t, redacted, keys[1..]);
    if !IsReplay(Str(carrier)) {
      assert RecordIn(t, thinking, keys) == RecordIn(t, thinking, keys[1..]);
    }
    assert Truthy(Get(thinking, keys[0])) <==> carrier != "";
    assert Truthy(Get(redacted, keys[1])) <==> carrier != "";
  }

  lemma {:induction false} NothingIsNoCarrier()
    ensures !IsReplay(Null)
  {
  }

  /** Opaque state travels.  An item with a carrier, or with opaque state that is none, becomes blocks whose first is a reasoning
      block holding that very text, so that a Messages destination finds the same record there, or the same opaque state; and
      beside a carrier of signed thinking stands that thinking, beside opaque state the item's own text. */
  lemma {:induction false} OpaqueStateTravels(t: JsonText, item: JsonObject)
    requires Carry(t, item).Ok? && NonEmptyText(Get(item, "encrypted_content"))
    ensures var blocks, carrier := Carry(t, item).value, Get(item, "encrypted_content");
            && blocks != [] && IsReasoning(Messages, blocks[0])
            && RecordIn(t, blocks[0].fields, CarrierKeys(Messages)) == RecordIn(t, item, ["encrypted_content"])
            && (!IsReplay(carrier) ==> |blocks| == 1 && Sealed(Messages, blocks[0].fields))
            && (!IsReplay(carrier) && (Readable(t, item) != [] || Truthy(Get(item, "content"))) ==>
                  blocks[0] == Thinking(Str(JoinTexts("\n\n", Texts(Readable(t, item)))), carrier.s))
            && (IsReplay(carrier) && Decode(t, carrier.s).value.origin.protocol.Messages?
                && Get(Decode(t, carrier.s).value.native, "type") == Str("thinking") ==>
                  blocks == [Thinking(Get(Decode(t, carrier.s).value.native, "thinking"), carrier.s)])
            && (blocks[0] == Redacted(carrier.s) || exists text :: blocks[0] == Thinking(text, carrier.s))
  {
    hide Readable, JoinTexts, IsReplay, Decode, CarrierKeys, Sealed, Texts, Contexts;
    var carrier := Get(item, "encrypted_content").s;
    assert ["encrypted_content"][1..] == [];
    assert RecordIn(t, item, []) == Ok(None);
    var blocks := Carry(t, item).value;
    if blocks[0] == Redacted(carrier) {
      BlockHolds(t, Null, carrier);
    } else {
      var text :| blocks[0] == Thinking(text, carrier);
      BlockHolds(t, text, carrier);
    }
  }

  /** A carrier of signed Messages thinking whose text is empty. */
  ghost predicate CarriesEmptyThinking(t: JsonText, item: JsonObject) {
    var carrier := Get(item, "encrypted_content");
    && IsReplay(carrier) && Decode(t, carrier.s).Ok? && Decode(t, carrier.s).value.origin.protocol.Messages?
    && Get(Decode(t, carrier.s).value.native, "type") == Str("thinking")
    && Get(Decode(t, carrier.s).value.native, "thinking") == Str("")
  }

  /** The blocks have the same to say as the item, text by text, with two exceptions: beside opaque state that is
      not a carrier the texts are run together into one block, next to the signature they belong to; and a
      carrier of empty thinking silences the item's own readable text. */
  lemma {:induction false} CarriedHasTheSameToSay(t: JsonText, item: JsonObject)
    requires Sound(t) && Get(item, "type") == Str("reasoning") && Carry(t, item).Ok?
    ensures var blocks := Carry(t, item).value;
            var carrier := Get(item, "encrypted_content");
            var before := HasToSay(t, Responses, Obj(item));
            HasToSayAll(t, Messages, blocks, |blocks|) ==
            if NonEmptyText(carrier) && !IsReplay(carrier) && before != [] then [JoinTexts("\n\n", before)]
            else if CarriesEmptyThinking(t, item) then []
            else before
  {
    hide Readable, RecordIn, JoinTexts, IsReplay, Decode, HasToSayAll;
    var readable := Readable(t, item);
    var carrier := Get(item, "encrypted_content");
    TextBlocksHaveToSay(t, readable, |readable|);
    assert readable[..|readable|] == readable;
    OnlyCarrier(t, item);
    if NonEmptyText(carrier) {
      if !IsReplay(carrier) {
        CarriedBesideOpaqueState(t, item);
      } else {
        CarriedWithRecord(t, item);
      }
    }
  }

  /** Exactly when readable text is lost: a carrier of empty thinking on an item with readable text of its own. */
  lemma {:induction false} TextIsLostExactly(t: JsonText, item: JsonObject)
    requires Sound(t) && Get(item, "type") == Str("reasoning") && Carry(t, item).Ok?
    ensures var blocks := Carry(t, item).value;
            (HasToSayAll(t, Messages, blocks, |blocks|) == [] && HasToSay(t, Responses, Obj(item)) != [])
            <==> CarriesEmptyThinking(t, item) && Readable(t, item) != []
  {
    hide Readable, RecordIn, JoinTexts, IsReplay, Decode, HasToSayAll, CarriesEmptyThinking;
    CarriedHasTheSameToSay(t, item);
    OnlyCarrier(t, item);
    if CarriesEmptyThinking(t, item) {
      EmptyThinkingReads(t, item);
    }
  }

  /** Signed thinking whose text was withheld. */
  function Withheld(): Record {
    Plain(Origin("p", Messages, "", "", "m"), map["type" := Str("thinking"), "thinking" := Str(""), "signature" := Str("x")])
  }

  function ItemWith(carrier: string, text: string): JsonObject {
    map["type" := Str("reasoning"), "encrypted_content" := Str(carrier), "content" := Arr([Obj(map["text" := Str(text)])])]
  }

  /** An input on which it happens: withheld thinking, carried by an item that still has a readable text.  The item
      has that text to say; the blocks it becomes have nothing. */
  lemma {:induction false} TextIsLostHere(t: JsonText) returns (item: JsonObject)
    requires Sound(t)
    ensures Encode(t, Withheld()).Ok? && item == ItemWith(Encode(t, Withheld()).value, "because")
    ensures Get(item, "type") == Str("reasoning") && Carry(t, item).Ok? && CarriesEmptyThinking(t, item)
    ensures HasToSay(t, Responses, Obj(item)) == ["because"]
    ensures var blocks := Carry(t, item).value; HasToSayAll(t, Messages, blocks, |blocks|) == []
  {
    hide Sound, Encode, Decode, IsReplay, CarriesEmptyThinking, HasToSay, HasToSayAll, Carry, ItemWith, Withheld, Readable, Get;
    WithheldIsCarried(t);
    var carrier := Encode(t, Withheld()).value;
    item := ItemWith(carrier, "because");
    ItemFields(t, carrier, "because");
    SaysEmptyThinking(t, item, Withheld());
    CarryOfRecord(t, item, Withheld());
    CarriedHasTheSameToSay(t, item);
    EmptyThinkingReads(t, item);
    SaysItsOwnText(t, item);
    OneText("because");
  }

  lemma {:induction false} WithheldIsCarried(t: JsonText)
    requires Sound(t)
    ensures Encode(t, Withheld()).Ok? && IsReplay(Str(Encode(t, Withheld()).value))
    ensures Decode(t, Encode(t, Withheld()).value) == Ok(Withheld())
    ensures var r := Withheld();
            r.origin.protocol.Messages? && Get(r.native, "type") == Str("thinking") && Get(r.native, "thinking") == Str("")
  {
    hide Sound, IsReplay, Decode, Copyable, Validate, BaseFields, Payload, Base64Url.Encode;
    WithheldIsCopyable();
    WithheldIsValid();
    EncodeDecode(t, Withheld());
  }

  lemma {:induction false} WithheldIsCopyable()
    ensures Copyable(Obj(BaseFields(Withheld())), 0)
  {
    hide OriginFields;
    var r := Withheld();
    CopyableOrigin(r.origin);
    assert forall k | k in r.native :: Copyable(r.native[k], 2);
    assert Copyable(Obj(r.native), 1);
  }

  lemma {:induction false} WithheldIsValid()
    ensures Validate(Payload(Withheld()), Withheld().Associated?).Ok?
  {
    hide OriginFields, ReadOrigin;
    var r := Withheld();
    ReadOriginInverse(r.origin);
    var p := Payload(r);
    assert p["origin"] == Obj(OriginFields(r.origin)) && p["native"] == Obj(r.native) && p.Keys == {"origin", "native"};
  }

  lemma {:induction false} ItemFields(t: JsonText, carrier: string, text: string)
    requires text != ""
    ensures var item := ItemWith(carrier, text);
            && Get(item, "type") == Str("reasoning") && Get(item, "encrypted_content") == Str(carrier)
            && Readable(t, item) == [Reading(text, false)]
  {
    hide Readable;
    OneTextIsRead(t, ItemWith(carrier, text), text);
  }

  lemma {:induction false} SaysEmptyThinking(t: JsonText, item: JsonObject, r: Record)
    requires var c := Get(item, "encrypted_content"); IsReplay(c) && Decode(t, c.s) == Ok(r)
    requires r.origin.protocol.Messages? && Get(r.native, "type") == Str("thinking") && Get(r.native, "thinking") == Str("")
    ensures CarriesEmptyThinking(t, item)
  {
    hide Decode;
  }

  lemma {:induction false} CarryOfRecord(t: JsonText, item: JsonObject, r: Record)
    requires var c := Get(item, "encrypted_content"); IsReplay(c) && Decode(t, c.s) == Ok(r)
    ensures Carry(t, item).Ok?
  {
    hide Decode, Readable, RecordIn;
    OnlyCarrier(t, item);
  }

  /** One text part is read as that text. */
  lemma {:induction false} OneTextIsRead(t: JsonText, item: JsonObject, text: string)
    requires Get(item, "type") == Str("reasoning") && Get(item, "content") == Arr([Obj(map["text" := Str(text)])])
    requires !Get(item, "summary").Arr? && text != ""
    ensures Readable(t, item) == [Reading(text, false)]
  {
    var parts := [Obj(map["text" := Str(text)])];
    assert PartTexts(parts, 0) == [] && TextPart(parts[0]);
    assert PartTexts(parts, 1) == [text];
    assert Texts([]) == [];
  }

  lemma {:induction false} SaysItsOwnText(t: JsonText, item: JsonObject)
    requires Get(item, "type") == Str("reasoning") && IsReplay(Get(item, "encrypted_content"))
    requires var c := Get(item, "encrypted_content").s; Decode(t, c).Ok? && Readable(t, Decode(t, c).value.native) == []
    ensures HasToSay(t, Responses, Obj(item)) == Texts(Readable(t, item))
  {
    hide Decode, Readable, RecordIn;
    OnlyCarrier(t, item);
  }

  lemma {:induction false} OneText(text: string)
    ensures Texts([Reading(text, false)]) == [text]
  {
  }

  lemma {:induction false} EmptyThinkingReads(t: JsonText, item: JsonObject)
    requires Sound(t) && CarriesEmptyThinking(t, item)
    ensures IsReplay(Get(item, "encrypted_content")) && Decode(t, Get(item, "encrypted_content").s).Ok?
    ensures Readable(t, Decode(t, Get(item, "encrypted_content").s).value.native) == []
  {
    hide Readable, Decode;
    NativeThinking(t, Get(item, "encrypted_content").s);
  }

  lemma {:induction false} OnlyCarrier(t: JsonText, item: JsonObject)
    ensures var carrier := Get(item, "encrypted_content");
            RecordIn(t, item, ["encrypted_content"]) ==
            if !IsReplay(carrier) then Ok(None)
            else if Decode(t, carrier.s).Err? then Err(Decode(t, carrier.s).error) else Ok(Some(Decode(t, carrier.s).value))
    ensures IsReplay(Get(item, "encrypted_content")) ==> NonEmptyText(Get(item, "encrypted_content"))
  {
    hide Decode;
    assert ["encrypted_content"][1..] == [];
    assert RecordIn(t, item, []) == Ok(None);
  }

  lemma {:induction false} CarriedBesideOpaqueState(t: JsonText, item: JsonObject)
    requires Sound(t) && Get(item, "type") == Str("reasoning")
    requires NonEmptyText(Get(item, "encrypted_content")) && !IsReplay(Get(item, "encrypted_content"))
    ensures Carry(t, item).Ok?
    ensures var blocks := Carry(t, item).value;
            var before := Texts(Readable(t, item));
            && HasToSay(t, Responses, Obj(item)) == before
            && HasToSayAll(t, Messages, blocks, |blocks|) == if before == [] then [] else [JoinTexts("\n\n", before)]
  {
    hide Readable, RecordIn, JoinTexts, IsReplay, Decode, HasToSayAll;
    var readable := Readable(t, item);
    var carrier := Get(item, "encrypted_content").s;
    OnlyCarrier(t, item);
    RedactedHasToSay(t, carrier);
    OneHasToSay(t, Messages, Redacted(carrier));
    var joined := JoinTexts("\n\n", Texts(readable));
    ThinkingHasToSay(t, joined, carrier);
    OneHasToSay(t, Messages, Thinking(Str(joined), carrier));
    JoinedIsEmpty(t, item);
  }

  lemma {:induction false} JoinedIsEmpty(t: JsonText, item: JsonObject)
    ensures JoinTexts("\n\n", Texts(Readable(t, item))) == "" <==> Readable(t, item) == []
  {
    hide Readable;
    var readable := Readable(t, item);
    NothingEmptyIsRead(t, item);
    if readable == [] {
      assert Texts(readable) == [];
    } else {
      assert readable[0] in readable;
      assert Texts(readable)[0] == readable[0].text;
    }
  }

  lemma {:induction false} CarriedWithRecord(t: JsonText, item: JsonObject)
    requires Sound(t) && Get(item, "type") == Str("reasoning") && Carry(t, item).Ok?
    requires IsReplay(Get(item, "encrypted_content"))
    ensures var blocks := Carry(t, item).value;
            HasToSayAll(t, Messages, blocks, |blocks|)
            == if CarriesEmptyThinking(t, item) then [] else HasToSay(t, Responses, Obj(item))
  {
    hide Readable, RecordIn, JoinTexts, Decode, HasToSayAll;
    var carrier := Get(item, "encrypted_content").s;
    var readable := Readable(t, item);
    OnlyCarrier(t, item);
    var record := Decode(t, carrier).value;
    if record.origin.protocol.Messages? && Get(record.native, "type") == Str("thinking") {
      NativeThinking(t, carrier);
      var text := Get(record.native, "thinking").s;
      ThinkingHasToSay(t, text, carrier);
      OneHasToSay(t, Messages, Thinking(Str(text), carrier));
    } else {
      RedactedHasToSay(t, carrier);
      OneHasToSay(t, Messages, Redacted(carrier));
      TextBlocksHaveToSay(t, readable, |readable|);
      assert readable[..|readable|] == readable;
      MoreHaveToSay(t, Messages, [Redacted(carrier)], TextBlocks(readable), |readable|);
      assert Texts([]) == [] && [] + Texts(readable) == Texts(readable);
    }
  }

  /** Native thinking is text, and is read as that text. */
  lemma {:induction false} NativeThinking(t: JsonText, s: string)
    requires Sound(t) && Decode(t, s).Ok?
    requires Decode(t, s).value.origin.protocol.Messages? && Get(Decode(t, s).value.native, "type") == Str("thinking")
    ensures var native := Decode(t, s).value.native;
            && Get(native, "thinking").Str?
            && Texts(Readable(t, native)) == (if Get(native, "thinking").s == "" then [] else [Get(native, "thinking").s])
  {
    hide Validate, Copyable;
    var r := Decode(t, s).value;
    DecodedIsWritable(t, s);
    ValidatePayload(r);
    ValidateInverse(Payload(r), r.Associated?);
    var native := r.native;
    assert t.show(Get(native, "thinking")) == Get(native, "thinking").s;
  }
}
