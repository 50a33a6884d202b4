/** The readable representations of a reasoning item, each with its summary or full-text meaning. */
module ReadableReasoning {
  import opened Common
  import opened ReplayRecords

  datatype Reading = Reading(text: string, summary: bool)

  // ----- specification -----

  predicate TextPart(part: Json) {
    part.Obj? && Get(part.fields, "text").Str?
  }

  function PartTexts(parts: seq<Json>, n: nat): seq<string>
    requires n <= |parts|
  {
    if n == 0 then []
    else PartTexts(parts, n - 1) + (if TextPart(parts[n - 1]) then [Get(parts[n - 1].fields, "text").s] else [])
  }

  function JoinTexts(separator: string, texts: seq<string>): string {
    if texts == [] then ""
    else if |texts| == 1 then texts[0]
    else texts[0] + separator + JoinTexts(separator, texts[1..])
  }

  /** One of the `content` and `summary` fields, unless `prior` already reads the same. */
  function FieldReading(item: JsonObject, key: string, prior: seq<Reading>): seq<Reading> {
    var parts := Get(item, key);
    if !parts.Arr? then prior
    else
      var text := JoinTexts("\n\n", PartTexts(parts.items, |parts.items|));
      if text == "" || text in Texts(prior) then prior else prior + [Reading(text, key == "summary")]
  }

  function Texts(readings: seq<Reading>): (r: seq<string>)
    ensures |r| == |readings| && forall i | 0 <= i < |r| :: r[i] == readings[i].text
  {
    seq(|readings|, i requires 0 <= i < |readings| => readings[i].text)
  }

  function DetailReading(detail: Json): Option<Reading> {
    if !detail.Obj? then None
    else
      var kind := Get(detail.fields, "type");
      if kind != Str("reasoning.text") && kind != Str("reasoning.summary") then None
      else
        var summary := kind == Str("reasoning.summary");
        var text := if summary && "summary" in detail.fields then detail.fields["summary"] else Get(detail.fields, "text");
        if NonEmptyText(text) then Some(Reading(text.s, summary)) else None
  }

  function DetailReadings(details: seq<Json>, n: nat): seq<Reading>
    requires n <= |details|
  {
    if n == 0 then []
    else
      var last := DetailReading(details[n - 1]);
      DetailReadings(details, n - 1) + (if last.Some? then [last.value] else [])
  }

  function Details(item: JsonObject): seq<Reading> {
    var details := Get(item, "reasoning_details");
    if details.Arr? then DetailReadings(details.items, |details.items|) else []
  }

  function TextsMarked(parts: seq<Reading>, summary: bool): seq<string> {
    if parts == [] then []
    else (if parts[0].summary == summary then [parts[0].text] else []) + TextsMarked(parts[1..], summary)
  }

  /** The native string may be a copy of one detail, or of the details run together. */
  function Represented(parts: seq<Reading>): set<string> {
    var all, full, brief := Texts(parts), TextsMarked(parts, false), TextsMarked(parts, true);
    (set i | 0 <= i < |all| :: all[i])
    + {JoinTexts("", all), JoinTexts("\n\n", all), JoinTexts("", full), JoinTexts("\n\n", full),
       JoinTexts("", brief), JoinTexts("\n\n", brief)}
  }

  function NativeReading(item: JsonObject, key: string, represented: set<string>): seq<Reading> {
    var text := Get(item, key);
    if NonEmptyText(text) && text.s !in represented then [Reading(text.s, false)] else []
  }

  function NativeReadings(item: JsonObject, represented: set<string>): seq<Reading> {
    var first := NativeReading(item, "reasoning_content", represented);
    first + NativeReading(item, "reasoning", represented + (set r | r in first :: r.text))
  }

  function Readable(t: JsonText, item: JsonObject): seq<Reading> {
    if Get(item, "type") == Str("thinking") then
      var thinking := Get(item, "thinking");
      var text := if Truthy(thinking) then t.show(thinking) else "";
      if text == "" then [] else [Reading(text, false)]
    else
      var fields := FieldReading(item, "summary", FieldReading(item, "content", []));
      if fields != [] then fields
      else NativeReadings(item, Represented(Details(item))) + Details(item)
  }

  // ----- the loops -----

  method ReadField(item: JsonObject, key: string, prior: seq<Reading>) returns (fields: seq<Reading>)
    ensures fields == FieldReading(item, key, prior)
  {
    fields := prior;
    var parts := Get(item, key);
    if parts.Arr? {
      var texts := [];
      for i := 0 to |parts.items|
        invariant texts == PartTexts(parts.items, i)
      {
        if TextPart(parts.items[i]) {
          texts := texts + [Get(parts.items[i].fields, "text").s];
        }
      }
      var text := JoinTexts("\n\n", texts);
      if text != "" && text !in Texts(fields) {
        fields := fields + [Reading(text, key == "summary")];
      }
    }
  }

  method ReadDetails(item: JsonObject) returns (parts: seq<Reading>)
    ensures parts == Details(item)
  {
    parts := [];
    var details := Get(item, "reasoning_details");
    if details.Arr? {
      for i := 0 to |details.items|
        invariant parts == DetailReadings(details.items, i)
      {
        var reading := DetailReading(details.items[i]);
        if reading.Some? {
          parts := parts + [reading.value];
        }
      }
    }
  }

  method ReadReasoning(t: JsonText, item: JsonObject) returns (r: seq<Reading>)
    ensures r == Readable(t, item)
  {
    hide Details, FieldReading, Represented, NativeReading;
    if Get(item, "type") == Str("thinking") {
      var text := if Truthy(Get(item, "thinking")) then t.show(Get(item, "thinking")) else "";
      return if text == "" then [] else [Reading(text, false)];
    }
    var content := ReadField(item, "content", []);
    var fields := ReadField(item, "summary", content);
    if fields != [] {
      return fields;
    }
    var parts := ReadDetails(item);
    var represented := Represented(parts);
    var native := NativeReading(item, "reasoning_content", represented);
    represented := represented + (set n | n in native :: n.text);
    native := native + NativeReading(item, "reasoning", represented);
    r := native + parts;
  }

  // ----- what the readings are -----

  /** Running texts together keeps every one of them, in order, with the separator between neighbours. */
  lemma {:induction false} JoinedTextsKeepAll(separator: string, xs: seq<string>, ys: seq<string>)
    requires xs != [] && ys != []
    ensures JoinTexts(separator, xs + ys) == JoinTexts(separator, xs) + separator + JoinTexts(separator, ys)
    decreases |xs|
  {
    assert (xs + ys)[0] == xs[0] && (xs + ys)[1..] == xs[1..] + ys;
    if |xs| == 1 {
      assert xs[1..] + ys == ys;
    } else {
      JoinedTextsKeepAll(separator, xs[1..], ys);
      assert JoinTexts(separator, xs + ys)
             == xs[0] + separator + (JoinTexts(separator, xs[1..]) + separator + JoinTexts(separator, ys));
    }
  }

  lemma {:induction false} DetailTexts(details: seq<Json>, n: nat)
    requires n <= |details|
    ensures forall r | r in DetailReadings(details, n) :: r.text != ""
  {
    if n > 0 {
      DetailTexts(details, n - 1);
    }
  }

  /** No reading is empty. */
  lemma {:induction false} NothingEmptyIsRead(t: JsonText, item: JsonObject)
    ensures forall r | r in Readable(t, item) :: r.text != ""
  {
    hide JoinTexts, Represented, PartTexts, Texts;
    var details := Get(item, "reasoning_details");
    if details.Arr? {
      DetailTexts(details.items, |details.items|);
    }
  }

  /** `content` and `summary` are read as two texts only when they differ. */
  lemma {:induction false} FieldsAreDistinct(item: JsonObject)
    ensures var fields := FieldReading(item, "summary", FieldReading(item, "content", []));
            && |fields| <= 2 && (|fields| == 2 ==> fields[0].text != fields[1].text && !fields[0].summary && fields[1].summary)
  {
    hide JoinTexts, PartTexts;
    var content := FieldReading(item, "content", []);
    if content != [] {
      assert Texts(content)[0] == content[0].text;
    }
  }

  /** A native string is read only when no detail says the same, alone or run together, and only once. */
  lemma {:induction false} NativeTextsAreNew(item: JsonObject)
    ensures var parts := Details(item);
            var native := NativeReadings(item, Represented(parts));
            && |native| <= 2
            && (forall r | r in native :: !r.summary && r.text !in Texts(parts)
                  && r.text != JoinTexts("", Texts(parts)) && r.text != JoinTexts("\n\n", Texts(parts)))
            && (|native| == 2 ==> native[0].text != native[1].text)
  {
    hide JoinTexts, Details, TextsMarked;
    var parts := Details(item);
    var represented := Represented(parts);
    forall text | text in Texts(parts) ensures text in represented {
      var i :| 0 <= i < |parts| && Texts(parts)[i] == text;
    }
    var first := NativeReading(item, "reasoning_content", represented);
    if first != [] {
      assert first[0] in first;
      assert first[0].text in (set r | r in first :: r.text);
    }
  }

  // ----- nothing readable is passed over -----

  /** Each text part of a list is read, in its place among the text parts. */
  lemma {:induction false} PartIsRead(parts: seq<Json>, n: nat, i: nat)
    requires i < n <= |parts|
    ensures TextPart(parts[i]) ==>
              && |PartTexts(parts, i)| < |PartTexts(parts, n)|
              && PartTexts(parts, n)[|PartTexts(parts, i)|] == Get(parts[i].fields, "text").s
              && |PartTexts(parts, i + 1)| == |PartTexts(parts, i)| + 1
    ensures !TextPart(parts[i]) ==> |PartTexts(parts, i + 1)| == |PartTexts(parts, i)|
  {
    hide TextPart;
    if i < n - 1 {
      PartIsRead(parts, n - 1, i);
    }
  }

  /** Texts run together hold each of them. */
  lemma {:induction false} JoinedHolds(separator: string, texts: seq<string>, k: nat) returns (before: string, after: string)
    requires k < |texts|
    ensures JoinTexts(separator, texts) == before + texts[k] + after
    decreases |texts|
  {
    if |texts| == 1 {
      before, after := "", "";
      assert texts[0] == "" + texts[0] + "";
    } else if k == 0 {
      before, after := "", separator + JoinTexts(separator, texts[1..]);
      assert JoinTexts(separator, texts) == "" + texts[0] + after;
    } else {
      var b, a := JoinedHolds(separator, texts[1..], k - 1);
      before, after := texts[0] + separator + b, a;
      assert JoinTexts(separator, texts) == texts[0] + separator + (b + texts[k] + a);
    }
  }

  ghost predicate Within(part: string, text: string) {
    exists before: string, after: string :: text == before + part + after
  }

  lemma {:induction false} FieldsRead(t: JsonText, item: JsonObject)
    requires Get(item, "type") != Str("thinking")
    ensures var content := FieldReading(item, "content", []);
            var fields := FieldReading(item, "summary", content);
            && content <= fields && (fields != [] ==> Readable(t, item) == fields)
            && (fields == [] ==> Readable(t, item) == NativeReadings(item, Represented(Details(item))) + Details(item))
  {
    hide JoinTexts, Represented, PartTexts, Texts, Details, NativeReadings;
  }

  /** A field whose parts run together to a text is read as that text, the content as full text, the summary as a summary where
      the content does not say the same. */
  lemma {:induction false} FieldIsRead(t: JsonText, item: JsonObject, key: string)
    requires Get(item, "type") != Str("thinking") && (key == "content" || key == "summary") && Get(item, key).Arr?
    requires var parts := Get(item, key).items; JoinTexts("\n\n", PartTexts(parts, |parts|)) != ""
    ensures var parts := Get(item, key).items;
            var text := JoinTexts("\n\n", PartTexts(parts, |parts|));
            Reading(text, key == "summary") in Readable(t, item) || (key == "summary" && Reading(text, false) in Readable(t, item))
  {
    hide JoinTexts, PartTexts, Readable;
    FieldsRead(t, item);
    var parts := Get(item, key).items;
    var text := JoinTexts("\n\n", PartTexts(parts, |parts|));
    var content := FieldReading(item, "content", []);
    var fields := FieldReading(item, "summary", content);
    if key == "content" {
      assert content == [Reading(text, false)] && fields[0] == content[0];
    } else if text in Texts(content) {
      var k :| 0 <= k < |content| && Texts(content)[k] == text;
      assert content[k] == Reading(text, false) && fields[k] == content[k];
    } else {
      assert fields[|fields| - 1] == Reading(text, true);
    }
  }

  /** Every text part of `content` and of `summary` that is not empty is in some reading. */
  lemma {:induction false} EveryPartIsRead(t: JsonText, item: JsonObject, key: string, i: nat)
    requires Get(item, "type") != Str("thinking") && (key == "content" || key == "summary") && Get(item, key).Arr?
    requires i < |Get(item, key).items| && TextPart(Get(item, key).items[i]) && Get(Get(item, key).items[i].fields, "text").s != ""
    ensures exists r :: r in Readable(t, item) && Within(Get(Get(item, key).items[i].fields, "text").s, r.text)
  {
    hide Readable, PartTexts, JoinTexts;
    var parts := Get(item, key).items;
    PartIsRead(parts, |parts|, i);
    var before, after := JoinedHolds("\n\n", PartTexts(parts, |parts|), |PartTexts(parts, i)|);
    var text := JoinTexts("\n\n", PartTexts(parts, |parts|));
    assert Within(Get(parts[i].fields, "text").s, text);
    FieldIsRead(t, item, key);
    if Reading(text, key == "summary") in Readable(t, item) {
      assert Within(Get(parts[i].fields, "text").s, Reading(text, key == "summary").text);
    } else {
      assert Within(Get(parts[i].fields, "text").s, Reading(text, false).text);
    }
  }

  lemma {:induction false} DetailIsRead(details: seq<Json>, n: nat, i: nat)
    requires i < n <= |details| && DetailReading(details[i]).Some?
    ensures DetailReading(details[i]).value in DetailReadings(details, n)
  {
    hide DetailReading;
    if i < n - 1 {
      DetailIsRead(details, n - 1, i);
    }
  }

  /** Without a field reading every detail with a text is read: a `reasoning.text` in full, a `reasoning.summary` as a summary,
      by its own `summary` where it has one. */
  lemma {:induction false} EveryDetailIsRead(t: JsonText, item: JsonObject, i: nat)
    requires Get(item, "type") != Str("thinking") && FieldReading(item, "summary", FieldReading(item, "content", [])) == []
    requires Get(item, "reasoning_details").Arr? && i < |Get(item, "reasoning_details").items| && Get(item, "reasoning_details").items[i].Obj?
    ensures var detail := Get(item, "reasoning_details").items[i].fields;
            && (Get(detail, "type") == Str("reasoning.text") && NonEmptyText(Get(detail, "text")) ==>
                  Reading(Get(detail, "text").s, false) in Readable(t, item))
            && (Get(detail, "type") == Str("reasoning.summary") && NonEmptyText(Get(detail, "summary")) ==>
                  Reading(Get(detail, "summary").s, true) in Readable(t, item))
            && (Get(detail, "type") == Str("reasoning.summary") && "summary" !in detail && NonEmptyText(Get(detail, "text")) ==>
                  Reading(Get(detail, "text").s, true) in Readable(t, item))
  {
    hide FieldReading, DetailReadings, NativeReadings, Represented, Readable;
    FieldsRead(t, item);
    var details := Get(item, "reasoning_details").items;
    if DetailReading(details[i]).Some? {
      DetailIsRead(details, |details|, i);
    }
  }

  /** Without a field reading a native string is read, in full, unless the details say the same, alone or run together. */
  lemma {:induction false} NativeStringIsRead(t: JsonText, item: JsonObject, key: string)
    requires Get(item, "type") != Str("thinking") && FieldReading(item, "summary", FieldReading(item, "content", [])) == []
    requires (key == "reasoning_content" || key == "reasoning") && NonEmptyText(Get(item, key))
    ensures Reading(Get(item, key).s, false) in Readable(t, item) || Get(item, key).s in Represented(Details(item))
  {
    hide FieldReading, Represented, Readable, Details;
    FieldsRead(t, item);
    var represented := Represented(Details(item));
    var first := NativeReading(item, "reasoning_content", represented);
    if Get(item, key).s !in represented {
      if key == "reasoning_content" {
        assert first == [Reading(Get(item, key).s, false)];
        assert first[0] in NativeReadings(item, represented);
      } else if Get(item, key).s in (set r | r in first :: r.text) {
        assert first == [Reading(Get(item, key).s, false)];
        assert first[0] in NativeReadings(item, represented);
      } else {
        var native := NativeReadings(item, represented);
        assert native[|native| - 1] == Reading(Get(item, key).s, false);
      }
    }
  }

  /** Thinking is read as its text. */
  lemma {:induction false} ThinkingIsRead(t: JsonText, item: JsonObject)
    requires Sound(t) && Get(item, "type") == Str("thinking") && Get(item, "thinking").Str?
    ensures Readable(t, item) == if Get(item, "thinking").s == "" then [] else [Reading(Get(item, "thinking").s, false)]
  {
  }
}
