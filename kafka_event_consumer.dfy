/** The Kafka listener of the document service (events/KafkaDomainEventConsumer.java): it parses
    a raw domain event, extracts and checks its fields, falls back to the SHA-256 digest of the
    raw text, written in hex, when the event carries no id, and records the delivery once.
    JSON parsing, the digest and Instant.parse are parameters. */
module KafkaEventConsumer {
  import opened Wrappers
  import JavaString
  import ConsumedEvents

  // ---------------------------------------------------------------- the parsed event

  /** What JsonNode.path(name) can return, as far as the consumer distinguishes. */
  datatype JsonNode = MissingNode | NullNode | TextNode(text: string) | OtherNode

  /** objectMapper.readTree's result: the members of a JSON object. A root that is not an object
      answers MissingNode for every path, like an object without members. */
  datatype JsonTree = JsonTree(members: map<string, JsonNode>)

  /** objectMapper.readTree: None when it throws JsonProcessingException. */
  type JsonReader = string -> Option<JsonTree>
  /** SHA-256 over the UTF-8 bytes of the text (FIPS 180-4). */
  type Digest = string -> seq<JavaByte>
  /** Instant.parse, as epoch nanoseconds: None when it throws DateTimeParseException. */
  type InstantParser = string -> Option<int>

  datatype ConsumerError = InvalidPayload | MissingField(name: string) | InvalidInstant(text: string)

  /** The IllegalArgumentException messages; a failing Instant.parse keeps its own exception. */
  function ErrorMessage(e: ConsumerError): (m: Option<string>)
    ensures m.None? <==> e.InvalidInstant?
  {
    match e
    case InvalidPayload => Some("Invalid event payload")
    case MissingField(name) => Some("Missing required event field: " + name)
    case InvalidInstant(_) => None
  }

  function Path(root: JsonTree, name: string): JsonNode {
    if name in root.members then root.members[name] else MissingNode
  }

  /** textOrNull: the text of a textual member, nothing for a missing, null or non-textual one. */
  function TextOrNull(root: JsonTree, name: string): (r: Option<string>)
    ensures r.Some? <==> Path(root, name).TextNode?
    ensures r.Some? ==> r.value == Path(root, name).text
  {
    match Path(root, name)
    case TextNode(text) => Some(text)
    case _ => None
  }

  /** requireText: a textual member that is not blank, or the missing-field error naming it. */
  function RequireText(root: JsonTree, name: string): (r: Result<string, ConsumerError>)
    ensures r.Success? <==> TextOrNull(root, name).Some? && !JavaString.IsBlank(TextOrNull(root, name).value)
    ensures r.Success? ==> r.value == TextOrNull(root, name).value
    ensures r.Failure? ==> r.error == MissingField(name)
  {
    var value := TextOrNull(root, name);
    if value.None? || JavaString.IsBlank(value.value) then Failure(MissingField(name)) else Success(value.value)
  }

  /** parseInstant: absent or blank text is no instant; other text must parse. */
  function ParseInstant(value: Option<string>, parse: InstantParser): (r: Result<Option<int>, ConsumerError>)
    ensures value.None? || JavaString.IsBlank(value.value) ==> r == Success(None)
    ensures value.Some? && !JavaString.IsBlank(value.value) ==>
      r == (if parse(value.value).Some? then Success(Some(parse(value.value).value)) else Failure(InvalidInstant(value.value)))
  {
    if value.None? || JavaString.IsBlank(value.value) then Success(None)
    else match parse(value.value)
      case Some(instant) => Success(Some(instant))
      case None => Failure(InvalidInstant(value.value))
  }

  // ---------------------------------------------------------------- the hex encoding of a digest

  /** Java's byte: a signed 8-bit value. */
  newtype JavaByte = x: int | -128 <= x < 128

  /** A character %x writes: a decimal digit or a lower-case letter up to f. */
  predicate IsHexDigit(c: char) {
    '0' <= c <= '9' || 'a' <= c <= 'f'
  }

  /** The lower-case hex digit for a value below 16. */
  function HexDigit(n: nat): (c: char)
    requires n < 16
    ensures IsHexDigit(c)
  {
    if n < 10 then ('0' as int + n) as char else ('a' as int + n - 10) as char
  }

  /** String.format("%02x", b) for a Byte formats the value plus 2^8 when it is negative. */
  function Unsigned(b: JavaByte): (n: nat)
    ensures n < 256 && n % 256 == (b as int) % 256
  {
    if b < 0 then b as int + 256 else b as int
  }

  function HexPair(b: JavaByte): (s: string)
    ensures |s| == 2 && IsHexDigit(s[0]) && IsHexDigit(s[1])
  {
    [HexDigit(Unsigned(b) / 16), HexDigit(Unsigned(b) % 16)]
  }

  /** The digest's bytes, two lower-case hex digits each, in order. */
  function Hex(bytes: seq<JavaByte>): (s: string)
    ensures |s| == 2 * |bytes|
    ensures forall i :: 0 <= i < |s| ==> IsHexDigit(s[i])
  {
    if bytes == [] then [] else Hex(bytes[..|bytes| - 1]) + HexPair(bytes[|bytes| - 1])
  }

  /** The loop of sha256 that fills the StringBuilder. */
  method HexOf(bytes: seq<JavaByte>) returns (s: string)
    ensures s == Hex(bytes)
  {
    s := [];
    for i := 0 to |bytes|
      invariant s == Hex(bytes[..i])
    {
      assert bytes[..i + 1][..i] == bytes[..i];
      s := s + HexPair(bytes[i]);
    }
    assert bytes[..|bytes|] == bytes;
  }

  /** The value of one lower-case hex digit. */
  function HexValue(c: char): (r: Option<nat>)
    ensures r.Some? ==> r.value < 16 && HexDigit(r.value) == c
    ensures r.Some? <==> IsHexDigit(c)
  {
    if '0' <= c <= '9' then Some(c as int - '0' as int)
    else if 'a' <= c <= 'f' then Some(c as int - 'a' as int + 10)
    else None
  }

  /** Reading a hex string back into signed bytes. */
  function DecodeHex(s: string): Option<seq<JavaByte>>
    decreases |s|
  {
    if s == [] then Some([])
    else if |s| < 2 then None
    else
      match (DecodeHex(s[..|s| - 2]), HexValue(s[|s| - 2]), HexValue(s[|s| - 1]))
      case (Some(prefix), Some(high), Some(low)) =>
        var n: int := high * 16 + low;
        Some(prefix + [(if n >= 128 then n - 256 else n) as JavaByte])
      case _ => None
  }

  lemma HexPairDecodes(b: JavaByte)
    ensures HexValue(HexPair(b)[0]) == Some(Unsigned(b) / 16)
    ensures HexValue(HexPair(b)[1]) == Some(Unsigned(b) % 16)
  {
  }

  /** The hex text determines the digest: decoding it gives the bytes back. */
  lemma {:induction false} HexRoundTrip(bytes: seq<JavaByte>)
    ensures DecodeHex(Hex(bytes)) == Some(bytes)
  {
    if bytes != [] {
      var prefix := bytes[..|bytes| - 1];
      var last := bytes[|bytes| - 1];
      var s := Hex(bytes);
      assert s[..|s| - 2] == Hex(prefix);
      assert s[|s| - 2..] == HexPair(last);
      HexRoundTrip(prefix);
      HexPairDecodes(last);
      assert bytes == prefix + [last];
    }
  }

  /** A 32-byte SHA-256 digest gives a 64-character lower-case hex id. */
  lemma DigestIdShape(bytes: seq<JavaByte>)
    requires |bytes| == 32
    ensures |Hex(bytes)| == 64
    ensures forall i :: 0 <= i < 64 ==> IsHexDigit(Hex(bytes)[i])
  {
  }

  // ---------------------------------------------------------------- handling an event

  datatype EventFields = EventFields(eventId: string, eventType: string, aggregateId: string, occurredAt: Option<int>)

  /** The event id: the event's own id when it is textual and not blank, else the digest of the
      raw text in hex. */
  function EventId(root: JsonTree, raw: string, digest: Digest): (id: string)
    ensures TextOrNull(root, "eventId").Some? && !JavaString.IsBlank(TextOrNull(root, "eventId").value) ==>
      id == TextOrNull(root, "eventId").value
    ensures TextOrNull(root, "eventId").None? || JavaString.IsBlank(TextOrNull(root, "eventId").value) ==>
      id == Hex(digest(raw))
  {
    var supplied := TextOrNull(root, "eventId");
    if supplied.None? || JavaString.IsBlank(supplied.value) then Hex(digest(raw)) else supplied.value
  }

  /** handleEvent up to the recorder: parse, then eventType, then aggregateId, then occurredAt. */
  function Extracted(raw: string, read: JsonReader, digest: Digest, parse: InstantParser): (r: Result<EventFields, ConsumerError>)
    ensures read(raw).None? ==> r == Failure(InvalidPayload)
    ensures read(raw).Some? && RequireText(read(raw).value, "eventType").Failure? ==> r == Failure(MissingField("eventType"))
    ensures (read(raw).Some? && RequireText(read(raw).value, "eventType").Success?
             && RequireText(read(raw).value, "aggregateId").Failure?) ==> r == Failure(MissingField("aggregateId"))
    ensures r.Success? ==>
      var root := read(raw).value;
      && RequireText(root, "eventType") == Success(r.value.eventType)
      && RequireText(root, "aggregateId") == Success(r.value.aggregateId)
      && r.value.eventId == EventId(root, raw, digest)
      && ParseInstant(TextOrNull(root, "occurredAt"), parse) == Success(r.value.occurredAt)
    ensures r.Failure? && r.error.InvalidInstant? ==> ParseInstant(TextOrNull(read(raw).value, "occurredAt"), parse).Failure?
  {
    match read(raw)
    case None => Failure(InvalidPayload)
    case Some(root) =>
      match RequireText(root, "eventType")
      case Failure(e) => Failure(e)
      case Success(eventType) =>
        match RequireText(root, "aggregateId")
        case Failure(e) => Failure(e)
        case Success(aggregateId) =>
          var eventId := EventId(root, raw, digest);
          match ParseInstant(TextOrNull(root, "occurredAt"), parse)
          case Failure(e) => Failure(e)
          case Success(occurredAt) => Success(EventFields(eventId, eventType, aggregateId, occurredAt))
  }

  function DeliveryOf(consumerName: string, f: EventFields, processedAt: int): ConsumedEvents.Delivery {
    ConsumedEvents.Delivery(consumerName, f.eventId, f.eventType, f.aggregateId, f.occurredAt, processedAt)
  }

  /** handleEvent: a rejected event reaches no recorder; an accepted one is offered to the
      recorder exactly once, under the configured consumer name. The result is recordIfNew's. */
  method HandleEvent(recorder: ConsumedEvents.ConsumedEventRecorder, consumerName: string, raw: string,
                     read: JsonReader, digest: Digest, parse: InstantParser, processedAt: int)
    returns (r: Result<bool, ConsumerError>)
    requires recorder.Valid()
    modifies recorder
    ensures recorder.Valid()
    ensures Extracted(raw, read, digest, parse).Failure? ==>
      && r == Failure(Extracted(raw, read, digest, parse).error)
      && recorder.rows == old(recorder.rows) && recorder.calls == old(recorder.calls)
    ensures Extracted(raw, read, digest, parse).Success? ==>
      var d := DeliveryOf(consumerName, Extracted(raw, read, digest, parse).value, processedAt);
      && r.Success?
      && (r.value, recorder.rows) == ConsumedEvents.RecordedIfNew(old(recorder.rows), d)
      && recorder.calls == old(recorder.calls) + [d]
  {
    var tree := read(raw);
    if tree.None? {
      return Failure(InvalidPayload);
    }
    var root := tree.value;
    var eventType := RequireText(root, "eventType");
    if eventType.Failure? {
      return Failure(eventType.error);
    }
    var aggregateId := RequireText(root, "aggregateId");
    if aggregateId.Failure? {
      return Failure(aggregateId.error);
    }
    var eventId := TextOrNull(root, "eventId");
    var id: string;
    if eventId.None? || JavaString.IsBlank(eventId.value) {
      id := HexOf(digest(raw));
    } else {
      id := eventId.value;
    }
    var occurredAt := ParseInstant(TextOrNull(root, "occurredAt"), parse);
    if occurredAt.Failure? {
      return Failure(occurredAt.error);
    }
    var processed := recorder.RecordIfNew(consumerName, id, eventType.value, aggregateId.value, occurredAt.value, processedAt);
    r := Success(processed);
  }

  /** The same raw event delivered again to the same consumer is recognised as a duplicate:
      the second delivery stores nothing and reports false. */
  lemma RedeliveryIsDuplicate(rows: seq<ConsumedEvents.ConsumedEvent>, consumerName: string, raw: string,
                              read: JsonReader, digest: Digest, parse: InstantParser, first: int, second: int)
    requires Extracted(raw, read, digest, parse).Success?
    ensures
      var f := Extracted(raw, read, digest, parse).value;
      var after := ConsumedEvents.RecordedIfNew(rows, DeliveryOf(consumerName, f, first)).1;
      ConsumedEvents.RecordedIfNew(after, DeliveryOf(consumerName, f, second)) == (false, after)
  {
    var f := Extracted(raw, read, digest, parse).value;
    ConsumedEvents.DuplicateIgnoresOtherFields(rows, DeliveryOf(consumerName, f, first), DeliveryOf(consumerName, f, second));
  }

  /** An event without an id of its own is identified by its raw text: two deliveries of
      different texts get different ids whenever their digests differ. */
  lemma FallbackIdsFollowDigests(root1: JsonTree, raw1: string, root2: JsonTree, raw2: string, digest: Digest)
    requires TextOrNull(root1, "eventId").None? && TextOrNull(root2, "eventId").None?
    requires digest(raw1) != digest(raw2)
    ensures EventId(root1, raw1, digest) != EventId(root2, raw2, digest)
  {
    HexRoundTrip(digest(raw1));
    HexRoundTrip(digest(raw2));
  }
}
