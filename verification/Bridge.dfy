/** The native messaging bridge: length-prefixed frames over a pipe. */
module Bridge {
  import opened Common
  import opened ReplayRecords
  import opened Base64Url

  const MAX_REQUEST_BYTES := 1_048_576
  const DISCARD_CHUNK_BYTES := 65_536
  const PREFIX_SIZE := 4
  const LENGTHS := 0x1_0000_0000

  // ----- frames -----

  /** A length as four bytes, least significant first. */
  function PackLength(n: nat): (r: seq<byte>)
    requires n < LENGTHS
    ensures |r| == PREFIX_SIZE
  {
    [n % 256, n / 256 % 256, n / 256 / 256 % 256, n / 256 / 256 / 256]
  }

  function UnpackLength(b: seq<byte>): nat
    requires |b| == PREFIX_SIZE
  {
    b[0] as int + b[1] as int * 256 + b[2] as int * 65_536 + b[3] as int * 16_777_216
  }

  /** The value of bytes read least significant first. */
  function LittleEndian(b: seq<byte>): nat {
    if b == [] then 0 else b[0] as nat + 256 * LittleEndian(b[1..])
  }

  lemma {:induction false} UnpackIsLittleEndian(b: seq<byte>)
    requires |b| == PREFIX_SIZE
    ensures UnpackLength(b) == LittleEndian(b)
  {
    var c, d, e := b[1..], b[2..], b[3..];
    assert c[1..] == d && d[1..] == e && e[1..] == [];
    assert LittleEndian(e) == b[3] as nat + 256 * LittleEndian([]);
    assert LittleEndian(d) == b[2] as nat + 256 * LittleEndian(e);
    assert LittleEndian(c) == b[1] as nat + 256 * LittleEndian(d);
  }

  lemma {:induction false} LengthUnpacks(n: nat)
    requires n < LENGTHS
    ensures UnpackLength(PackLength(n)) == n
  {
    var a := n / 256;
    var b := a / 256;
    var c := b / 256;
    assert n == a * 256 + n % 256 && a == b * 256 + a % 256 && b == c * 256 + b % 256 && c < 256;
  }

  lemma {:induction false} LengthPacks(b: seq<byte>)
    requires |b| == PREFIX_SIZE
    ensures UnpackLength(b) < LENGTHS && PackLength(UnpackLength(b)) == b
  {
    var n := UnpackLength(b);
    var b0: int, b1: int, b2: int, b3: int := b[0], b[1], b[2], b[3];
    assert n / 256 == b1 + b2 * 256 + b3 * 65_536 && n % 256 == b0;
    assert n / 256 / 256 == b2 + b3 * 256 && n / 256 % 256 == b1;
    assert n / 256 / 256 / 256 == b3 && n / 256 / 256 % 256 == b2;
  }

  predicate Framable(payload: seq<byte>) {
    |payload| < LENGTHS
  }

  function Frame(payload: seq<byte>): seq<byte>
    requires Framable(payload)
  {
    PackLength(|payload|) + payload
  }

  predicate AllFramable(payloads: seq<seq<byte>>) {
    forall i | 0 <= i < |payloads| :: Framable(payloads[i])
  }

  function Framed(payloads: seq<seq<byte>>): seq<byte>
    requires AllFramable(payloads)
  {
    if payloads == [] then [] else Frame(payloads[0]) + Framed(payloads[1..])
  }

  /** Too short for a prefix, or for the payload its prefix announces. */
  predicate Incomplete(s: seq<byte>) {
    |s| < PREFIX_SIZE || |s| - PREFIX_SIZE < UnpackLength(s[..PREFIX_SIZE])
  }

  // ----- reading one message -----

  datatype Refusal = TooLong(length: nat) | NotUtf8 | NotJson | NotAnObject

  /** What decoding a payload as UTF-8 JSON yields; text and JSON decoding belong to the runtime. */
  type Parser = seq<byte> -> Result<Json, Refusal>

  datatype Reading = Closed | Refused(why: Refusal) | Request(message: JsonObject)

  function Classified(payload: seq<byte>, parse: Parser): (r: Reading)
    ensures !r.Closed?
  {
    if |payload| > MAX_REQUEST_BYTES then Refused(TooLong(|payload|))
    else
      match parse(payload)
      case Err(why) => Refused(why)
      case Ok(Obj(fields)) => Request(fields)
      case Ok(_) => Refused(NotAnObject)
  }

  /** What the next read yields, and what it leaves in the pipe. */
  function ReadOne(s: seq<byte>, parse: Parser): (Reading, seq<byte>) {
    if Incomplete(s) then (Closed, [])
    else
      var length := UnpackLength(s[..PREFIX_SIZE]);
      (Classified(s[PREFIX_SIZE..PREFIX_SIZE + length], parse), s[PREFIX_SIZE + length..])
  }

  /** On the wire a frame is four bytes, least significant first, of the payload's length, and the payload. */
  lemma {:induction false} FrameOnTheWire(payload: seq<byte>)
    requires Framable(payload)
    ensures var f := Frame(payload);
            |f| == PREFIX_SIZE + |payload| && LittleEndian(f[..PREFIX_SIZE]) == |payload| && f[PREFIX_SIZE..] == payload
  {
    var f := Frame(payload);
    assert f[..PREFIX_SIZE] == PackLength(|payload|);
    LengthUnpacks(|payload|);
    UnpackIsLittleEndian(f[..PREFIX_SIZE]);
  }

  /** A read takes as many bytes behind the prefix as the prefix announces, least significant byte first, and is the end
      of input exactly when they are not all there. */
  lemma {:induction false} ReadTakesWhatIsAnnounced(s: seq<byte>, parse: Parser)
    ensures var (r, rest) := ReadOne(s, parse);
            && (r.Closed? <==> |s| < PREFIX_SIZE || |s| < PREFIX_SIZE + LittleEndian(s[..PREFIX_SIZE]))
            && (!r.Closed? ==>
                  var end := PREFIX_SIZE + LittleEndian(s[..PREFIX_SIZE]);
                  r == Classified(s[PREFIX_SIZE..end], parse) && rest == s[end..])
  {
    hide Classified;
    if |s| >= PREFIX_SIZE {
      UnpackIsLittleEndian(s[..PREFIX_SIZE]);
    }
  }

  /** A payload is a request exactly when it is no longer than the limit and holds a JSON object. */
  lemma {:induction false} RequestsAreObjects(payload: seq<byte>, parse: Parser)
    ensures forall message ::
              Classified(payload, parse) == Request(message) <==> |payload| <= MAX_REQUEST_BYTES && parse(payload) == Ok(Obj(message))
    ensures |payload| > MAX_REQUEST_BYTES ==> Classified(payload, parse) == Refused(TooLong(|payload|))
    ensures |payload| <= MAX_REQUEST_BYTES && parse(payload).Err? ==> Classified(payload, parse) == Refused(parse(payload).error)
    ensures |payload| <= MAX_REQUEST_BYTES && parse(payload).Ok? && !parse(payload).value.Obj? ==>
              Classified(payload, parse) == Refused(NotAnObject)
  {
  }

  /** A buffered binary input: a read is short only at the end of input. */
  class InputStream {
    var rest: seq<byte>

    constructor (content: seq<byte>)
      ensures rest == content
    {
      rest := content;
    }

    method Read(n: nat) returns (r: seq<byte>)
      modifies this
      ensures |r| == (if n < |old(rest)| then n else |old(rest)|) && r == old(rest)[..|r|]
      ensures rest == old(rest)[|r|..]
    {
      var size := if n < |rest| then n else |rest|;
      r := rest[..size];
      rest := rest[size..];
    }
  }

  /** Consumes a refused payload in pieces; reports whether it was all there. */
  method DiscardFrame(stream: InputStream, length: nat) returns (complete: bool)
    modifies stream
    ensures complete <==> length <= |old(stream.rest)|
    ensures stream.rest == old(stream.rest)[if complete then length else |old(stream.rest)|..]
  {
    var remaining: nat := length;
    ghost var all := stream.rest;
    while remaining > 0
      invariant remaining <= length && length - remaining <= |all|
      invariant stream.rest == all[length - remaining..]
    {
      var chunk := stream.Read(if remaining < DISCARD_CHUNK_BYTES then remaining else DISCARD_CHUNK_BYTES);
      if chunk == [] {
        assert stream.rest == [];
        return false;
      }
      remaining := remaining - |chunk|;
    }
    complete := true;
  }

  /** Reads one message; a refused frame is read off the pipe whole. */
  method ReadMessage(stream: InputStream, parse: Parser) returns (r: Reading)
    modifies stream
    ensures r == ReadOne(old(stream.rest), parse).0
    ensures !r.Closed? ==> stream.rest == ReadOne(old(stream.rest), parse).1
    ensures r.Closed? ==> stream.rest == []
    ensures var s := old(stream.rest);
            r.Closed? <==> |s| < PREFIX_SIZE || |s| < PREFIX_SIZE + LittleEndian(s[..PREFIX_SIZE])
  {
    ReadTakesWhatIsAnnounced(stream.rest, parse);
    ghost var s := stream.rest;
    var header := stream.Read(PREFIX_SIZE);
    if |header| < PREFIX_SIZE {
      return Closed;
    }
    var length := UnpackLength(header);
    if length > MAX_REQUEST_BYTES {
      var complete := DiscardFrame(stream, length);
      if !complete {
        return Closed;
      }
      assert |s[PREFIX_SIZE..PREFIX_SIZE + length]| == length;
      assert stream.rest == s[PREFIX_SIZE + length..];
      return Refused(TooLong(length));
    }
    var payload := stream.Read(length);
    if |payload| < length {
      return Closed;
    }
    assert payload == s[PREFIX_SIZE..PREFIX_SIZE + length];
    assert stream.rest == s[PREFIX_SIZE + length..];
    var decoded := parse(payload);
    if decoded.Err? {
      return Refused(decoded.error);
    }
    if !decoded.value.Obj? {
      return Refused(NotAnObject);
    }
    r := Request(decoded.value.fields);
  }

  // ----- writing -----

  class OutputStream {
    var sent: seq<byte>

    constructor ()
      ensures sent == []
    {
      sent := [];
    }

    method Write(bytes: seq<byte>)
      modifies this
      ensures sent == old(sent) + bytes
    {
      sent := sent + bytes;
    }
  }

  type Writer = JsonObject -> seq<byte>

  /** Writes one message; a payload too long for the prefix cannot be packed. */
  method WriteMessage(stream: OutputStream, message: JsonObject, dumps: Writer) returns (ok: bool)
    modifies stream
    ensures ok == Framable(dumps(message))
    ensures stream.sent == if ok then old(stream.sent) + Frame(dumps(message)) else old(stream.sent)
    ensures ok ==> LittleEndian(stream.sent[|old(stream.sent)|..][..PREFIX_SIZE]) == |dumps(message)|
  {
    var payload := dumps(message);
    if |payload| >= LENGTHS {
      return false;
    }
    ghost var before := stream.sent;
    stream.Write(PackLength(|payload|));
    stream.Write(payload);
    FrameOnTheWire(payload);
    assert stream.sent == before + (PackLength(|payload|) + payload);
    assert stream.sent[|before|..] == Frame(payload);
    ok := true;
  }

  // ----- the serving loop -----

  /** How requests and refusals are answered; running a command belongs to the handler. */
  datatype Host = Host(handle: JsonObject -> JsonObject, refuse: Refusal -> JsonObject)

  function Answer(host: Host, r: Reading): JsonObject
    requires !r.Closed?
  {
    match r
    case Request(message) => host.handle(message)
    case Refused(why) => host.refuse(why)
  }

  /** Every answer given to a stream, in order. */
  function Answers(host: Host, s: seq<byte>, parse: Parser): seq<JsonObject>
    decreases |s|
  {
    var (r, rest) := ReadOne(s, parse);
    if r.Closed? then [] else [Answer(host, r)] + Answers(host, rest, parse)
  }

  function Payloads(messages: seq<JsonObject>, dumps: Writer): (r: seq<seq<byte>>)
    ensures |r| == |messages| && forall i | 0 <= i < |r| :: r[i] == dumps(messages[i])
  {
    seq(|messages|, i requires 0 <= i < |messages| => dumps(messages[i]))
  }

  lemma {:induction false} FramedAppend(xs: seq<seq<byte>>, y: seq<byte>)
    requires AllFramable(xs) && Framable(y)
    ensures AllFramable(xs + [y]) && Framed(xs + [y]) == Framed(xs) + Frame(y)
    decreases |xs|
  {
    if xs == [] {
      assert (xs + [y])[1..] == [];
    } else {
      FramedAppend(xs[1..], y);
      assert (xs + [y])[1..] == xs[1..] + [y];
      assert Framed(xs + [y]) == Frame(xs[0]) + (Framed(xs[1..]) + Frame(y));
    }
  }

  /** Serves until the pipe closes: one answer is written for each frame read. Only an answer too long
      for its prefix ends the loop early. */
  method Serve(host: Host, input: InputStream, output: OutputStream, parse: Parser, dumps: Writer)
    returns (clean: bool, ghost given: seq<JsonObject>)
    modifies input, output
    ensures AllFramable(Payloads(given, dumps)) && output.sent == old(output.sent) + Framed(Payloads(given, dumps))
    ensures var answers := Answers(host, old(input.rest), parse);
            && given <= answers && (clean <==> given == answers)
            && (!clean ==> |given| < |answers| && !Framable(dumps(answers[|given|])))
  {
    hide ReadOne, Frame, Framed, Payloads, AllFramable, Answer, Framable;
    NoAnswerYet(output.sent, dumps);
    ghost var all, before := Answers(host, input.rest, parse), output.sent;
    given := [];
    AnswersStart(all);
    while true
      invariant all == given + Answers(host, input.rest, parse)
      invariant AllFramable(Payloads(given, dumps)) && output.sent == before + Framed(Payloads(given, dumps))
      decreases |input.rest|
    {
      ghost var s := input.rest;
      var r := ReadMessage(input, parse);
      if r.Closed? {
        AnswersStart(given);
        return true, given;
      }
      ReadingConsumes(s, parse);
      var answer := Answer(host, r);
      AnswerFirst(given, answer, Answers(host, input.rest, parse));
      var ok := WriteMessage(output, answer, dumps);
      if !ok {
        return false, given;
      }
      OneMoreAnswer(before, given, answer, dumps);
      given := given + [answer];
    }
  }

  lemma {:induction false} NoAnswerYet(before: seq<byte>, dumps: Writer)
    ensures AllFramable(Payloads([], dumps)) && before + Framed(Payloads([], dumps)) == before
  {
    assert Payloads([], dumps) == [];
  }

  lemma {:induction false} AnswersStart(all: seq<JsonObject>)
    ensures [] + all == all && all + [] == all
  {
  }

  lemma {:induction false} AnswerFirst(given: seq<JsonObject>, answer: JsonObject, rest: seq<JsonObject>)
    ensures given + ([answer] + rest) == (given + [answer]) + rest
    ensures (given + ([answer] + rest))[|given|] == answer
  {
  }

  lemma {:induction false} OneMoreAnswer(before: seq<byte>, given: seq<JsonObject>, answer: JsonObject, dumps: Writer)
    requires AllFramable(Payloads(given, dumps)) && Framable(dumps(answer))
    ensures AllFramable(Payloads(given + [answer], dumps))
    ensures before + Framed(Payloads(given, dumps)) + Frame(dumps(answer)) == before + Framed(Payloads(given + [answer], dumps))
  {
    hide Frame;
    FramedAppend(Payloads(given, dumps), dumps(answer));
    assert Payloads(given + [answer], dumps) == Payloads(given, dumps) + [dumps(answer)];
    assert before + Framed(Payloads(given, dumps)) + Frame(dumps(answer))
           == before + (Framed(Payloads(given, dumps)) + Frame(dumps(answer)));
  }

  lemma {:induction false} ReadingConsumes(s: seq<byte>, parse: Parser)
    requires !ReadOne(s, parse).0.Closed?
    ensures |ReadOne(s, parse).1| + PREFIX_SIZE <= |s|
  {
  }

  // ----- staying in step -----

  /** Reading takes exactly one frame off the pipe, whatever its payload. */
  lemma {:induction false} OneFramePerRead(payload: seq<byte>, rest: seq<byte>, parse: Parser)
    requires Framable(payload)
    ensures ReadOne(Frame(payload) + rest, parse) == (Classified(payload, parse), rest)
  {
    var s := Frame(payload) + rest;
    LengthUnpacks(|payload|);
    assert s[..PREFIX_SIZE] == PackLength(|payload|);
    assert s[PREFIX_SIZE..PREFIX_SIZE + |payload|] == payload;
    assert s[PREFIX_SIZE + |payload|..] == rest;
  }

  /** Every stream of bytes is a sequence of frames and an incomplete rest. */
  lemma {:induction false} StreamIsFrames(s: seq<byte>) returns (payloads: seq<seq<byte>>, tail: seq<byte>)
    ensures AllFramable(payloads) && Incomplete(tail) && s == Framed(payloads) + tail
    decreases |s|
  {
    if Incomplete(s) {
      payloads, tail := [], s;
      assert s == [] + s;
    } else {
      var length := UnpackLength(s[..PREFIX_SIZE]);
      LengthPacks(s[..PREFIX_SIZE]);
      var payload := s[PREFIX_SIZE..PREFIX_SIZE + length];
      assert s == Frame(payload) + s[PREFIX_SIZE + length..];
      var rest, t := StreamIsFrames(s[PREFIX_SIZE + length..]);
      payloads, tail := [payload] + rest, t;
      assert payloads[1..] == rest;
      assert s == Frame(payload) + (Framed(rest) + tail);
    }
  }

  function Expected(host: Host, payloads: seq<seq<byte>>, parse: Parser): (r: seq<JsonObject>)
    ensures |r| == |payloads|
    ensures forall i | 0 <= i < |r| :: r[i] == Answer(host, Classified(payloads[i], parse))
  {
    seq(|payloads|, i requires 0 <= i < |payloads| => Answer(host, Classified(payloads[i], parse)))
  }

  /** Frames are answered one by one and in order; a refused frame costs nothing after it. */
  lemma {:induction false} OneAnswerPerFrame(host: Host, payloads: seq<seq<byte>>, tail: seq<byte>, parse: Parser)
    requires AllFramable(payloads) && Incomplete(tail)
    ensures Answers(host, Framed(payloads) + tail, parse) == Expected(host, payloads, parse)
    decreases |payloads|
  {
    hide Frame, Classified, Incomplete, ReadOne;
    if payloads == [] {
      assert Framed(payloads) + tail == tail;
      TailCloses(tail, parse);
    } else {
      var rest := Framed(payloads[1..]) + tail;
      assert Framed(payloads) + tail == Frame(payloads[0]) + rest;
      OneFramePerRead(payloads[0], rest, parse);
      OneAnswerPerFrame(host, payloads[1..], tail, parse);
      assert Expected(host, payloads, parse)
             == [Answer(host, Classified(payloads[0], parse))] + Expected(host, payloads[1..], parse);
    }
  }

  lemma {:induction false} TailCloses(tail: seq<byte>, parse: Parser)
    requires Incomplete(tail)
    ensures ReadOne(tail, parse).0.Closed?
  {
  }

  /** A message within the limit reads back as it was written, and leaves the stream in step. */
  lemma {:induction false} WrittenMessageReadsBack(message: JsonObject, rest: seq<byte>, dumps: Writer, parse: Parser)
    requires parse(dumps(message)) == Ok(Obj(message)) && Framable(dumps(message))
    ensures ReadOne(Frame(dumps(message)) + rest, parse)
            == (if |dumps(message)| <= MAX_REQUEST_BYTES then Request(message) else Refused(TooLong(|dumps(message)|)), rest)
  {
    hide Frame, ReadOne;
    OneFramePerRead(dumps(message), rest, parse);
  }

  /** The answers on the wire read back, in order, as the answers given. */
  lemma {:induction false} AnswersReadBack(host: Host, messages: seq<JsonObject>, dumps: Writer, parse: Parser)
    requires forall i | 0 <= i < |messages| ::
               parse(dumps(messages[i])) == Ok(Obj(messages[i])) && |dumps(messages[i])| <= MAX_REQUEST_BYTES
    ensures AllFramable(Payloads(messages, dumps))
    ensures Answers(host, Framed(Payloads(messages, dumps)), parse)
            == seq(|messages|, i requires 0 <= i < |messages| => host.handle(messages[i]))
  {
    hide Incomplete;
    var payloads := Payloads(messages, dumps);
    EmptyIsIncomplete();
    OneAnswerPerFrame(host, payloads, [], parse);
    assert Framed(payloads) + [] == Framed(payloads);
    forall i | 0 <= i < |messages| ensures Expected(host, payloads, parse)[i] == host.handle(messages[i]) {
      assert parse(dumps(messages[i])) == Ok(Obj(messages[i]));
    }
  }

  lemma {:induction false} EmptyIsIncomplete()
    ensures Incomplete([])
  {
  }

  // ----- bounded capture -----

  function Joined(chunks: seq<seq<byte>>): seq<byte> {
    if chunks == [] then [] else Joined(chunks[..|chunks| - 1]) + chunks[|chunks| - 1]
  }

  function First(s: seq<byte>, n: nat): seq<byte> {
    if |s| <= n then s else s[..n]
  }

  /** A process's output pipe: what each read will deliver, and nothing at the end. */
  class OutputPipe {
    var coming: seq<seq<byte>>

    constructor (chunks: seq<seq<byte>>)
      ensures coming == chunks
    {
      coming := chunks;
    }

    method Read() returns (chunk: seq<byte>)
      modifies this
      ensures old(coming) == [] ==> chunk == [] && coming == []
      ensures old(coming) != [] ==> chunk == old(coming)[0] && coming == old(coming)[1..]
    {
      if coming == [] {
        chunk := [];
      } else {
        chunk := coming[0];
        coming := coming[1..];
      }
    }
  }

  /** Drains a pipe, keeping exactly its first `limit` bytes, however the output arrives in pieces. */
  method ReadBounded(pipe: OutputPipe, limit: nat) returns (kept: seq<byte>, truncated: bool)
    requires forall i | 0 <= i < |pipe.coming| :: pipe.coming[i] != []
    modifies pipe
    ensures kept == First(Joined(old(pipe.coming)), limit)
    ensures truncated <==> |Joined(old(pipe.coming))| > limit
    ensures pipe.coming == []
  {
    hide First;
    kept, truncated := [], false;
    KeepNothing(limit);
    var received: nat := 0;
    ghost var chunks := pipe.coming;
    ghost var n: nat := 0;
    var chunk := pipe.Read();
    while chunk != []
      invariant n <= |chunks|
      invariant chunk == [] ==> n == |chunks| && pipe.coming == []
      invariant chunk != [] ==> n < |chunks| && chunk == chunks[n] && pipe.coming == chunks[n + 1..]
      invariant kept == First(Joined(chunks[..n]), limit) && received == |kept|
      invariant truncated <==> |Joined(chunks[..n])| > limit
      decreases |chunks| - n
    {
      ghost var so := Joined(chunks[..n]);
      assert chunks[..n + 1][..n] == chunks[..n];
      assert Joined(chunks[..n + 1]) == so + chunk;
      KeepMore(so, chunk, limit);
      if received < limit {
        var remaining := limit - received;
        kept := kept + First(chunk, remaining);
        received := received + (if |chunk| < remaining then |chunk| else remaining);
        if |chunk| > remaining {
          truncated := true;
        }
      } else {
        truncated := true;
      }
      n := n + 1;
      chunk := pipe.Read();
    }
    assert chunks[..|chunks|] == chunks;
  }

  lemma {:induction false} KeepNothing(limit: nat)
    ensures First(Joined([]), limit) == []
  {
  }

  lemma {:induction false} KeepMore(so: seq<byte>, chunk: seq<byte>, limit: nat)
    requires chunk != []
    ensures |First(so, limit)| < limit ==> First(so + chunk, limit) == First(so, limit) + First(chunk, limit - |First(so, limit)|)
    ensures |First(so, limit)| < limit ==> (|so + chunk| > limit <==> |chunk| > limit - |First(so, limit)|) && |so| == |First(so, limit)|
    ensures |First(so, limit)| < limit ==>
              var left := limit - |First(so, limit)|; |First(chunk, left)| == if |chunk| < left then |chunk| else left
    ensures |First(so, limit)| >= limit ==> First(so + chunk, limit) == First(so, limit) && |so + chunk| > limit
  {
  }
}
