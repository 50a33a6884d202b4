/** Carrier records: what a replay carrier holds, how it is checked, written and read. */
module ReplayRecords {
  import opened Common
  import Base64Url

  /** A JSON value; a number is its literal, and `NonFinite` is a number JSON text cannot carry. */
  datatype Json =
    | Null
    | Bool(b: bool)
    | Num(literal: string)
    | NonFinite
    | Str(s: string)
    | Arr(items: seq<Json>)
    | Obj(fields: JsonObject)

  type JsonObject = map<string, Json>

  /** JSON text in UTF-8, and `str` of a value; both belong to the runtime. */
  datatype JsonText = JsonText(dumps: Json -> seq<Base64Url.byte>, loads: seq<Base64Url.byte> -> Option<Json>, show: Json -> string)

  const MAX_DEPTH := 128

  /** Finite, and nested at most `MAX_DEPTH` deep when found at `depth`. */
  predicate Copyable(j: Json, depth: nat)
    decreases MAX_DEPTH - depth
  {
    && depth <= MAX_DEPTH
    && match j
       case NonFinite => false
       case Arr(items) => forall i | 0 <= i < |items| :: Copyable(items[i], depth + 1)
       case Obj(fields) => forall k | k in fields :: Copyable(fields[k], depth + 1)
       case _ => true
  }

  ghost predicate Sound(t: JsonText) {
    && (forall j :: Copyable(j, 0) ==> t.loads(t.dumps(j)) == Some(j))
    && (forall s: string :: t.show(Str(s)) == s)
  }

  function Get(o: JsonObject, key: string): Json {
    if key in o then o[key] else Null
  }

  /** No exponent has begun. */
  predicate Mantissa(s: string) {
    'e' !in s && 'E' !in s
  }

  /** Python truth value. */
  predicate Truthy(j: Json) {
    match j
    case Null => false
    case Bool(b) => b
    case Num(literal) => exists i | 0 <= i < |literal| :: '1' <= literal[i] <= '9' && Mantissa(literal[..i])
    case NonFinite => true
    case Str(s) => s != ""
    case Arr(items) => items != []
    case Obj(fields) => fields != map[]
  }

  predicate NonEmptyText(j: Json) {
    j.Str? && j.s != ""
  }

  // ----- records -----

  datatype Protocol = Responses | Messages | Chat

  datatype Origin = Origin(provider: string, protocol: Protocol, endpoint: string, connection: string, model: string)

  datatype Part = Anchor | Final

  datatype Record =
    | Plain(origin: Origin, native: JsonObject)
    | Associated(origin: Origin, native: JsonObject, group: string, part: Part)

  datatype ReplayError =
    | NotJson
    | InvalidProvenance
    | WrongNative
    | InvalidAssociation
    | UnsupportedVersion
    | Malformed
    | MalformedLegacy
    | ConflictingAssociation
    | FinalNeedsRedacted
    | FinalPrecedesAnchor

  /** The upstream owns model compatibility; an unknown endpoint or connection is not held against a record. */
  predicate Accepts(destination: Origin, source: Origin) {
    && destination.provider == source.provider
    && destination.protocol == source.protocol
    && (source.endpoint == "" || destination.endpoint == source.endpoint)
    && (source.connection == "" || destination.connection == source.connection)
  }

  /** Acceptance is a preorder.  It never looks at the model; for a fully described source it is agreement
      on everything else, and for a source with unknown endpoint and connection, on provider and protocol. */
  lemma {:induction false} AcceptanceExactly(d: Origin, s: Origin, r: Origin)
    ensures Accepts(d, d) && (Accepts(d, s) && Accepts(s, r) ==> Accepts(d, r))
    ensures s.endpoint != "" && s.connection != "" ==> (Accepts(d, s) <==> d == s.(model := d.model))
    ensures s.endpoint == "" && s.connection == "" ==> (Accepts(d, s) <==> d.provider == s.provider && d.protocol == s.protocol)
    ensures Accepts(d, s) ==> Accepts(d, s.(endpoint := "")) && Accepts(d, s.(connection := ""))
  {
  }

  function ProtocolName(p: Protocol): string {
    match p
    case Responses => "responses"
    case Messages => "messages"
    case Chat => "chat"
  }

  function ProtocolNamed(s: string): Option<Protocol> {
    if s == "responses" then Some(Responses)
    else if s == "messages" then Some(Messages)
    else if s == "chat" then Some(Chat)
    else None
  }

  function PartName(p: Part): string {
    if p.Anchor? then "anchor" else "final"
  }

  function PartNamed(s: string): Option<Part> {
    if s == "anchor" then Some(Anchor) else if s == "final" then Some(Final) else None
  }

  function OriginFields(o: Origin): JsonObject {
    map["provider" := Str(o.provider), "protocol" := Str(ProtocolName(o.protocol)), "endpoint" := Str(o.endpoint),
        "connection" := Str(o.connection), "model" := Str(o.model)]
  }

  function ReadOrigin(j: Json): Option<Origin> {
    if !j.Obj? then None
    else
      var o := j.fields;
      if o.Keys != {"provider", "protocol", "endpoint", "connection", "model"} then None
      else if !(o["provider"].Str? && o["protocol"].Str? && o["endpoint"].Str? && o["connection"].Str? && o["model"].Str?) then None
      else if o["provider"].s == "" || o["model"].s == "" || ProtocolNamed(o["protocol"].s).None? then None
      else Some(Origin(o["provider"].s, ProtocolNamed(o["protocol"].s).value, o["endpoint"].s, o["connection"].s, o["model"].s))
  }

  predicate NativeFits(protocol: Protocol, native: JsonObject) {
    match protocol
    case Responses => Get(native, "type") == Str("reasoning")
    case Messages =>
      || (Get(native, "type") == Str("thinking") && Get(native, "thinking").Str? && NonEmptyText(Get(native, "signature")))
      || (Get(native, "type") == Str("redacted_thinking") && NonEmptyText(Get(native, "data")))
    case Chat =>
      && ("reasoning_details" in native || "reasoning_content" in native || "reasoning" in native)
      && ("reasoning_details" in native ==> native["reasoning_details"].Arr?)
      && ("reasoning_content" in native ==> native["reasoning_content"].Str?)
      && ("reasoning" in native ==> native["reasoning"].Str?)
  }

  function BaseFields(r: Record): JsonObject {
    map["origin" := Obj(OriginFields(r.origin)), "native" := Obj(r.native)]
  }

  function Payload(r: Record): JsonObject {
    if r.Plain? then BaseFields(r)
    else BaseFields(r)["group_id" := Str(r.group)]["part" := Str(PartName(r.part))]
  }

  function Validate(p: JsonObject, associated: bool): Result<Record, ReplayError> {
    var origin := ReadOrigin(Get(p, "origin"));
    if p.Keys != (if associated then {"origin", "native", "group_id", "part"} else {"origin", "native"}) then
      Err(InvalidProvenance)
    else if origin.None? || !Get(p, "native").Obj? then Err(InvalidProvenance)
    else
      var native := p["native"].fields;
      if !NativeFits(origin.value.protocol, native) then Err(WrongNative)
      else if !associated then Ok(Plain(origin.value, native))
      else
        if origin.value.protocol != Chat || !NonEmptyText(p["group_id"]) || !p["part"].Str? || PartNamed(p["part"].s).None? then
          Err(InvalidAssociation)
        else Ok(Associated(origin.value, native, p["group_id"].s, PartNamed(p["part"].s).value))
  }

  // ----- carriers -----

  const PREFIX := "fcc:history:v1:"
  const ASSOCIATED_PREFIX := "fcc:history:v2:"
  const LEGACY_PREFIX := "fcc:anthropic-reasoning:v1:"

  predicate IsReplay(j: Json) {
    j.Str? && ("fcc:history:" <= j.s || "fcc:anthropic-reasoning:" <= j.s)
  }

  function Encode(t: JsonText, r: Record): Result<string, ReplayError> {
    if !Copyable(Obj(BaseFields(r)), 0) then Err(NotJson)
    else
      var checked := Validate(Payload(r), r.Associated?);
      if checked.Err? then Err(checked.error)
      else Ok((if r.Associated? then ASSOCIATED_PREFIX else PREFIX) + Base64Url.Encode(t.dumps(Obj(Payload(r)))))
  }

  function Prefix(s: string): Option<string> {
    if PREFIX <= s then Some(PREFIX)
    else if ASSOCIATED_PREFIX <= s then Some(ASSOCIATED_PREFIX)
    else if LEGACY_PREFIX <= s then Some(LEGACY_PREFIX)
    else None
  }

  /** The payload behind a carrier's text. */
  function Carried(t: JsonText, encoded: string): Option<JsonObject> {
    var raw := Base64Url.Decode(encoded);
    if raw.None? then None
    else
      var loaded := t.loads(raw.value);
      if loaded.None? || !loaded.value.Obj? || !Copyable(loaded.value, 0) then None
      else Some(loaded.value.fields)
  }

  /** A legacy Messages carrier, restated as a record payload. */
  function Legacy(p: JsonObject): Option<JsonObject> {
    if p.Keys != {"protocol", "replay_scope", "source_model", "block"} || p["protocol"] != Str("anthropic_messages") then None
    else
      var origin := map["provider" := p["replay_scope"], "protocol" := Str("messages"), "endpoint" := Str(""),
                        "connection" := Str(""), "model" := p["source_model"]];
      Some(map["origin" := Obj(origin), "native" := p["block"]])
  }

  function Decode(t: JsonText, s: string): Result<Record, ReplayError> {
    var prefix := Prefix(s);
    if prefix.None? then Err(UnsupportedVersion)
    else
      var carried := Carried(t, s[|prefix.value|..]);
      if carried.None? then Err(Malformed)
      else if prefix.value == LEGACY_PREFIX then
        if Legacy(carried.value).None? then Err(MalformedLegacy)
        else Validate(Legacy(carried.value).value, false)
      else Validate(carried.value, prefix.value == ASSOCIATED_PREFIX)
  }

  // ----- checking, writing and reading agree -----

  /** A record that may be written: its payload passes the check and can be copied. */
  ghost predicate Writable(r: Record) {
    Copyable(Obj(BaseFields(r)), 0) && Validate(Payload(r), r.Associated?).Ok?
  }

  lemma {:induction false} ReadOriginInverse(o: Origin)
    requires o.provider != "" && o.model != ""
    ensures ReadOrigin(Obj(OriginFields(o))) == Some(o)
  {
  }

  lemma {:induction false} OriginFieldsInverse(j: Json)
    requires ReadOrigin(j).Some?
    ensures j == Obj(OriginFields(ReadOrigin(j).value))
    ensures ReadOrigin(j).value.provider != "" && ReadOrigin(j).value.model != ""
  {
    var o := j.fields;
    assert o == OriginFields(ReadOrigin(j).value);
  }

  /** A payload that passes the check is exactly the payload of the record it yields. */
  lemma {:induction false} ValidateInverse(p: JsonObject, associated: bool)
    requires Validate(p, associated).Ok?
    ensures var r := Validate(p, associated).value;
            r.Associated? == associated && Payload(r) == p && NativeFits(r.origin.protocol, r.native)
            && r.origin.provider != "" && r.origin.model != ""
  {
    hide OriginFields, ReadOrigin, NativeFits;
    var r := Validate(p, associated).value;
    OriginFieldsInverse(Get(p, "origin"));
    assert Payload(r).Keys == p.Keys;
    assert forall k | k in p :: Payload(r)[k] == p[k];
    assert Payload(r) == p;
  }

  /** A record the format can hold: provider and model are named, the native state fits the protocol, and halves are Chat's
      and carry a group. */
  predicate WellFormed(r: Record) {
    && r.origin.provider != "" && r.origin.model != "" && NativeFits(r.origin.protocol, r.native)
    && (r.Associated? ==> r.origin.protocol.Chat? && r.group != "")
  }

  /** The check passes exactly the payloads of such records. */
  lemma {:induction false} ChecksExactly(r: Record)
    ensures Validate(Payload(r), r.Associated?) == Ok(r) <==> WellFormed(r)
  {
    hide NativeFits, OriginFields, ReadOrigin;
    var p := Payload(r);
    assert p["origin"] == Obj(OriginFields(r.origin)) && p["native"] == Obj(r.native);
    assert p.Keys == if r.Associated? then {"origin", "native", "group_id", "part"} else {"origin", "native"};
    if r.origin.provider != "" && r.origin.model != "" {
      ReadOriginInverse(r.origin);
    } else if Validate(p, r.Associated?) == Ok(r) {
      ValidateInverse(p, r.Associated?);
    }
  }

  lemma {:induction false} ValidatePayload(r: Record)
    requires Validate(Payload(r), r.Associated?).Ok?
    ensures Validate(Payload(r), r.Associated?) == Ok(r)
  {
    hide ReadOrigin, NativeFits;
    ValidateInverse(Payload(r), r.Associated?);
    var r2 := Validate(Payload(r), r.Associated?).value;
    assert Payload(r2)["origin"] == Payload(r)["origin"];
    OriginFieldsInjective(r.origin, r2.origin);
    assert Payload(r2)["native"] == Payload(r)["native"];
    if r.Associated? {
      assert Payload(r2)["group_id"] == Payload(r)["group_id"];
      assert Payload(r2)["part"] == Payload(r)["part"];
    }
  }

  lemma {:induction false} OriginFieldsInjective(o: Origin, p: Origin)
    requires OriginFields(o) == OriginFields(p)
    ensures o == p
  {
    assert OriginFields(o)["provider"] == OriginFields(p)["provider"];
    assert OriginFields(o)["protocol"] == OriginFields(p)["protocol"];
    assert OriginFields(o)["endpoint"] == OriginFields(p)["endpoint"];
    assert OriginFields(o)["connection"] == OriginFields(p)["connection"];
    assert OriginFields(o)["model"] == OriginFields(p)["model"];
  }

  lemma {:induction false} CopyablePayload(r: Record)
    requires Copyable(Obj(BaseFields(r)), 0)
    ensures Copyable(Obj(Payload(r)), 0)
  {
    var p := Payload(r);
    forall k | k in p ensures Copyable(p[k], 1) {
      if k in BaseFields(r) {
        assert p[k] == BaseFields(r)[k];
      }
    }
  }

  /** A carrier reads back as the record it was written from. */
  lemma {:induction false} EncodeDecode(t: JsonText, r: Record)
    requires Sound(t) && Encode(t, r).Ok?
    ensures IsReplay(Str(Encode(t, r).value)) && Decode(t, Encode(t, r).value) == Ok(r)
  {
    hide Validate, Copyable, Base64Url.Encode, Base64Url.Decode;
    var s := Encode(t, r).value;
    CopyablePayload(r);
    ValidatePayload(r);
    var prefix := if r.Associated? then ASSOCIATED_PREFIX else PREFIX;
    var encoded := Base64Url.Encode(t.dumps(Obj(Payload(r))));
    Base64Url.RoundTrip(t.dumps(Obj(Payload(r))));
    assert s == prefix + encoded && s[|prefix|..] == encoded && s[..|prefix|] == prefix;
    assert "fcc:history:" <= prefix && prefix <= s;
    assert |PREFIX| == |ASSOCIATED_PREFIX| && PREFIX[13] != ASSOCIATED_PREFIX[13];
    assert s[13] == prefix[13];
    assert Prefix(s) == Some(prefix);
    assert LEGACY_PREFIX != prefix by {
      assert LEGACY_PREFIX[4] != prefix[4];
    }
  }

  /** Whatever a carrier decodes to can be written again, and the rewritten carrier means the same. */
  lemma {:induction false} DecodedIsWritable(t: JsonText, s: string)
    requires Sound(t) && Decode(t, s).Ok?
    ensures Writable(Decode(t, s).value)
    ensures Encode(t, Decode(t, s).value).Ok? && Decode(t, Encode(t, Decode(t, s).value).value) == Decode(t, s)
  {
    hide Validate, Payload, Base64Url.Encode, Base64Url.Decode;
    var r := Decode(t, s).value;
    var prefix := Prefix(s).value;
    var carried := Carried(t, s[|prefix|..]).value;
    var p := if prefix == LEGACY_PREFIX then Legacy(carried).value else carried;
    ValidateInverse(p, prefix == ASSOCIATED_PREFIX);
    CopyableBase(r, p, carried, prefix == LEGACY_PREFIX);
    EncodeDecode(t, r);
  }

  /** What each carrier version holds.  A legacy carrier is a Messages record that any Messages destination of
      its provider accepts. */
  lemma {:induction false} VersionsHold(t: JsonText, s: string)
    requires Decode(t, s).Ok?
    ensures var r := Decode(t, s).value;
            && (PREFIX <= s ==> r.Plain?)
            && (ASSOCIATED_PREFIX <= s ==> r.Associated? && r.origin.protocol.Chat? && r.group != "")
            && (LEGACY_PREFIX <= s ==> r.Plain? && r.origin.protocol.Messages?)
    ensures LEGACY_PREFIX <= s ==>
              var o := Decode(t, s).value.origin;
              forall d: Origin :: Accepts(d, o) <==> d.provider == o.provider && d.protocol.Messages?
  {
    hide Base64Url.Decode, Copyable, NativeFits;
    assert PREFIX[13] == '1' && ASSOCIATED_PREFIX[13] == '2' && LEGACY_PREFIX[4] == 'a' && PREFIX[4] == ASSOCIATED_PREFIX[4] == 'h';
    var prefix := Prefix(s).value;
    assert s[..|prefix|] == prefix;
    assert PREFIX <= s ==> s[13] == '1' && s[4] == 'h';
    assert ASSOCIATED_PREFIX <= s ==> s[13] == '2' && s[4] == 'h';
    assert LEGACY_PREFIX <= s ==> s[4] == 'a';
    if prefix == LEGACY_PREFIX {
      LegacyOrigin(Carried(t, s[|prefix|..]).value);
    }
  }

  /** What a text is refused for: no version it knows, nothing readable behind it, or a payload that fails the check. */
  lemma {:induction false} RefusalsExactly(t: JsonText, s: string)
    ensures Decode(t, s) == Err(UnsupportedVersion) <==> !(PREFIX <= s) && !(ASSOCIATED_PREFIX <= s) && !(LEGACY_PREFIX <= s)
    ensures Decode(t, s) == Err(Malformed) <==> Prefix(s).Some? && Carried(t, s[|Prefix(s).value|..]).None?
    ensures Decode(t, s) == Err(MalformedLegacy) <==>
              Prefix(s) == Some(LEGACY_PREFIX) && Carried(t, s[|LEGACY_PREFIX|..]).Some? && Legacy(Carried(t, s[|LEGACY_PREFIX|..]).value).None?
  {
    hide Carried, NativeFits, ReadOrigin;
  }

  /** The block a legacy carrier holds, as a Messages record of its provider and model. */
  lemma {:induction false} LegacyReads(t: JsonText, s: string, provider: string, model: string, block: JsonObject)
    requires Prefix(s) == Some(LEGACY_PREFIX) && provider != "" && model != "" && NativeFits(Messages, block)
    requires Carried(t, s[|LEGACY_PREFIX|..]) ==
             Some(map["protocol" := Str("anthropic_messages"), "replay_scope" := Str(provider), "source_model" := Str(model),
                      "block" := Obj(block)])
    ensures Decode(t, s) == Ok(Plain(Origin(provider, Messages, "", "", model), block))
  {
    hide NativeFits, Carried;
    var r := Plain(Origin(provider, Messages, "", "", model), block);
    var p := Carried(t, s[|LEGACY_PREFIX|..]).value;
    assert p.Keys == {"protocol", "replay_scope", "source_model", "block"};
    assert Legacy(p).value == Payload(r);
    ChecksExactly(r);
  }

  lemma {:induction false} LegacyOrigin(p: JsonObject)
    requires Legacy(p).Some? && Validate(Legacy(p).value, false).Ok?
    ensures var o := Validate(Legacy(p).value, false).value.origin;
            o.protocol.Messages? && o.endpoint == "" && o.connection == ""
  {
    hide NativeFits;
    var q := Legacy(p).value;
    assert q["origin"].fields["protocol"] == Str("messages");
  }

  lemma {:induction false} CopyableBase(r: Record, p: JsonObject, carried: JsonObject, legacy: bool)
    requires Payload(r) == p && Copyable(Obj(carried), 0)
    requires if legacy then Legacy(carried) == Some(p) else carried == p
    ensures Copyable(Obj(BaseFields(r)), 0)
  {
    CopyableOrigin(r.origin);
    assert p["native"] == Obj(r.native);
    if legacy {
      assert carried["block"] == p["native"];
    }
    assert Copyable(Obj(r.native), 1);
  }

  lemma {:induction false} CopyableOrigin(o: Origin)
    ensures Copyable(Obj(OriginFields(o)), 1)
  {
    var f := OriginFields(o);
    forall k | k in f ensures Copyable(f[k], 2) {
      assert f[k].Str?;
    }
  }

  /** Dropping the association, and taking the native state of another record of the same origin,
      leaves a record that can be written. */
  lemma {:induction false} JoinedIsWritable(t: JsonText, r: Record, other: Record)
    requires Sound(t) && Writable(r) && Writable(other) && r.origin == other.origin
    ensures var joined := Plain(r.origin, other.native);
            && Writable(joined) && Encode(t, joined).Ok?
            && IsReplay(Str(Encode(t, joined).value)) && Decode(t, Encode(t, joined).value) == Ok(joined)
  {
    hide Copyable, OriginFields, ReadOrigin, Base64Url.Encode, Base64Url.Decode, Decode;
    var joined := Plain(r.origin, other.native);
    assert BaseFields(joined) == BaseFields(other);
    ValidatePayload(r);
    ValidatePayload(other);
    ValidateInverse(Payload(r), r.Associated?);
    ValidateInverse(Payload(other), other.Associated?);
    ReadOriginInverse(r.origin);
    assert Payload(joined)["origin"] == Obj(OriginFields(r.origin)) && Payload(joined)["native"] == Obj(other.native);
    assert Payload(joined).Keys == {"origin", "native"};
    EncodeDecode(t, joined);
  }
}
