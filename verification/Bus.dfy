/** CloudEvents at the level of JSON values: the envelope, the direct path to the topic, and the
    path through the outbox. */
module Envelopes {
  import opened Documents

  datatype Json =
    | JNull
    | JBool(b: bool)
    | JNumber(n: int)
    | JText(text: string)
    | JList(items: seq<Json>)
    | JObject(fields: map<string, Json>)

  const SPEC_VERSION := "1.0"
  const SOURCE := "iag.dms-depot-node"

  datatype Envelope = Envelope(specVersion: string, id: string, source: string, kind: string, data: Json)

  datatype Message = Message(key: string, value: Json, headers: seq<(string, string)>)

  function Encode(e: Envelope): Json {
    JObject(map["specversion" := JText(e.specVersion), "id" := JText(e.id), "source" := JText(e.source),
                "type" := JText(e.kind), "data" := e.data])
  }

  // A string field: absent or null leaves it empty, anything but a string is an error.
  function TextField(fields: map<string, Json>, name: string): Result<string> {
    if name !in fields || fields[name] == JNull then Ok("")
    else match fields[name]
         case JText(text) => Ok(text)
         case _ => Err("decode outbox payload")
  }

  function Decode(j: Json): Result<Envelope> {
    match j
    case JNull => Ok(Envelope("", "", "", "", JNull))
    case JObject(fields) =>
      var v, i, s, k := TextField(fields, "specversion"), TextField(fields, "id"),
                        TextField(fields, "source"), TextField(fields, "type");
      if v.Err? || i.Err? || s.Err? || k.Err? then Err("decode outbox payload")
      else Ok(Envelope(v.value, i.value, s.value, k.value, if "data" in fields then fields["data"] else JNull))
    case _ => Err("decode outbox payload")
  }

  function NewEnvelope(kind: string, data: Json, freshId: string): Envelope {
    Envelope(SPEC_VERSION, freshId, SOURCE, kind, data)
  }

  function KeyOrId(key: string, e: Envelope): string {
    if key == "" then e.id else key
  }

  function MessageFor(e: Envelope, key: string): Message {
    Message(key, Encode(e), [("ce-type", e.kind), ("ce-source", e.source)])
  }

  // The message carries these attributes: the key, the headers that repeat type and source, and the
  // envelope as the JSON object CloudEvents names the members of.
  predicate Carries(m: Message, key: string, specVersion: string, id: string, source: string, kind: string,
                    data: Json)
  {
    && m.key == key && m.headers == [("ce-type", kind), ("ce-source", source)]
    && m.value == JObject(map["specversion" := JText(specVersion), "id" := JText(id), "source" := JText(source),
                              "type" := JText(kind), "data" := data])
  }

  // The message of an event this node publishes.
  predicate IsEvent(m: Message, kind: string, key: string, data: Json, freshId: string) {
    Carries(m, if key == "" then freshId else key, "1.0", freshId, "iag.dms-depot-node", kind, data)
  }

  // The message of a stored envelope: what it leaves empty comes from the row, the node or a fresh id.
  predicate IsDispatchOf(m: Message, kind: string, key: string, e: Envelope, freshId: string) {
    var id := if e.id == "" then freshId else e.id;
    Carries(m, if key == "" then id else key, if e.specVersion == "" then "1.0" else e.specVersion, id,
            if e.source == "" then "iag.dms-depot-node" else e.source, if e.kind == "" then kind else e.kind, e.data)
  }

  // A text member as a reader takes it: absent and null are the empty text.
  predicate ReadsText(fields: map<string, Json>, name: string, text: string) {
    if name in fields && fields[name].JText? then text == fields[name].text else text == ""
  }

  predicate MayBeText(fields: map<string, Json>, name: string) {
    name in fields ==> fields[name].JNull? || fields[name].JText?
  }

  /** What a stored payload is read as: null is an empty envelope, an object gives its members, and
      anything else, or a member that should be text and is not, is an error. */
  lemma DecodeReads(j: Json)
    ensures Decode(j).Ok? <==>
            || j.JNull?
            || (j.JObject? && MayBeText(j.fields, "specversion") && MayBeText(j.fields, "id")
                && MayBeText(j.fields, "source") && MayBeText(j.fields, "type"))
    ensures j.JNull? ==> Decode(j).value == Envelope("", "", "", "", JNull)
    ensures j.JObject? && Decode(j).Ok? ==>
      var e := Decode(j).value;
      && ReadsText(j.fields, "specversion", e.specVersion) && ReadsText(j.fields, "id", e.id)
      && ReadsText(j.fields, "source", e.source) && ReadsText(j.fields, "type", e.kind)
      && e.data == if "data" in j.fields then j.fields["data"] else JNull
  {
  }

  function OrElse(s: string, default: string): string {
    if s == "" then default else s
  }

  // What the outbox publisher fills in before writing.
  function Completed(e: Envelope, kind: string, freshId: string): Envelope {
    Envelope(OrElse(e.specVersion, SPEC_VERSION), OrElse(e.id, freshId), OrElse(e.source, SOURCE),
             OrElse(e.kind, kind), e.data)
  }

  function Redispatch(kind: string, key: string, payload: Json, freshId: string): Result<Message> {
    match Decode(payload)
    case Err(e) => Err(e)
    case Ok(e) =>
      var full := Completed(e, kind, freshId);
      Ok(MessageFor(full, KeyOrId(key, full)))
  }

  // How a write to the topic ends. An unacknowledged write may have reached the topic.
  datatype Ack = Acked | Unacked | Refused

  function WrittenBy(hasWriter: bool, m: Message, ack: Ack): seq<Message> {
    if hasWriter && ack != Refused then [m] else []
  }

  // What dispatching an outbox row reports, and what it adds to the topic.
  function DispatchError(writes: bool, kind: string, key: string, payload: Json, freshId: string, ack: Ack)
    : Option<string>
  {
    if !writes then None
    else match Redispatch(kind, key, payload, freshId)
         case Err(e) => Some(e)
         case Ok(m) => if ack == Acked then None else Some("kafka publish")
  }

  function Dispatched(writes: bool, kind: string, key: string, payload: Json, freshId: string, ack: Ack): seq<Message> {
    var m := Redispatch(kind, key, payload, freshId);
    if m.Ok? then WrittenBy(writes, m.value, ack) else []
  }

  /** Storing an envelope and reading it back loses nothing. */
  lemma EnvelopeRoundTrip(e: Envelope)
    ensures Decode(Encode(e)) == Ok(e)
  {
    var fields := Encode(e).fields;
    assert fields["specversion"] == JText(e.specVersion);
    assert fields["id"] == JText(e.id);
    assert fields["source"] == JText(e.source);
    assert fields["type"] == JText(e.kind);
    assert fields["data"] == e.data;
  }

  /** Whoever reads the message of a published event finds its type, its data, the node as source,
      version 1.0 and the fresh id; the key is the given one, or the id. */
  lemma PublishedMessage(kind: string, key: string, data: Json, freshId: string)
    ensures var e := NewEnvelope(kind, data, freshId);
            var m := MessageFor(e, KeyOrId(key, e));
            && IsEvent(m, kind, key, data, freshId)
            && Decode(m.value) == Ok(Envelope("1.0", freshId, "iag.dms-depot-node", kind, data))
            && m.key == (if key == "" then freshId else key)
            && m.headers == [("ce-type", kind), ("ce-source", "iag.dms-depot-node")]
  {
    EnvelopeRoundTrip(NewEnvelope(kind, data, freshId));
  }

  /** An envelope published through the outbox reaches the topic as the very message that
      publishing it directly writes, whichever id the redelivery draws. */
  lemma OutboxPathAgrees(kind: string, key: string, data: Json, freshId: string, redrawn: string)
    requires freshId != ""
    ensures var e := NewEnvelope(kind, data, freshId);
            Redispatch(kind, KeyOrId(key, e), Encode(e), redrawn) == Ok(MessageFor(e, KeyOrId(key, e)))
  {
    EnvelopeRoundTrip(NewEnvelope(kind, data, freshId));
  }

  /** Whatever decodes is dispatched, and nothing else; the message completes the stored envelope. */
  lemma RedispatchCompletes(kind: string, key: string, payload: Json, freshId: string)
    ensures Redispatch(kind, key, payload, freshId).Ok? <==> Decode(payload).Ok?
    ensures Decode(payload).Ok? ==>
      IsDispatchOf(Redispatch(kind, key, payload, freshId).value, kind, key, Decode(payload).value, freshId)
    ensures Decode(payload).Err? ==> Redispatch(kind, key, payload, freshId) == Err(Decode(payload).error)
  {
  }

  /** Two deliveries of one row carry the same message exactly when its envelope was stored with
      an id, unless the same id is drawn twice. */
  lemma RedeliveryStableIff(kind: string, key: string, payload: Json, one: string, other: string)
    requires Decode(payload).Ok? && one != "" && other != "" && one != other
    ensures Redispatch(kind, key, payload, one) == Redispatch(kind, key, payload, other)
       <==> Decode(payload).value.id != ""
  {
    var e := Decode(payload).value;
    var a, b := Completed(e, kind, one), Completed(e, kind, other);
    assert Encode(a).fields["id"] == JText(a.id);
    assert Encode(b).fields["id"] == JText(b.id);
  }

  /** Every message that reaches the topic carries what CloudEvents 1.0 lists under "Required Attributes", the
      type provided the row or the envelope names one. */
  lemma RequiredAttributes(kind: string, key: string, payload: Json, freshId: string)
    requires freshId != "" && Redispatch(kind, key, payload, freshId).Ok?
    ensures var m := Redispatch(kind, key, payload, freshId).value;
            var e := Decode(m.value);
            && e.Ok? && e.value.id != "" && e.value.source != "" && e.value.specVersion != ""
            && m.key != ""
            && (kind != "" ==> e.value.kind != "")
            && m.headers == [("ce-type", e.value.kind), ("ce-source", e.value.source)]
  {
    var full := Completed(Decode(payload).value, kind, freshId);
    EnvelopeRoundTrip(full);
  }
}

/** The outbox table and its statements. */
module OutboxTable {
  import opened Backoff
  import opened Documents
  import opened Envelopes

  datatype Entry = Entry(kind: string, key: Option<string>, payload: Json, availableAt: int, attempts: nat,
                         lastError: string, dispatchedAt: Option<int>)

  type Rows = map<nat, Entry>

  function Nullable(s: string): Option<string> {
    if s == "" then None else Some(s)
  }

  function KeyText(e: Entry): string {
    if e.key.Some? then e.key.value else ""
  }

  function NewEntry(kind: string, key: string, payload: Json, now: int): Entry {
    Entry(kind, Nullable(key), payload, now, 0, "", None)
  }

  predicate IsDue(e: Entry, now: int) {
    e.dispatchedAt.None? && e.availableAt <= now
  }

  function DueIds(t: Rows, now: int): set<nat> {
    set id | id in t && IsDue(t[id], now)
  }

  // The first `limit` due rows by id.
  ghost predicate IsBatch(t: Rows, limit: nat, now: int, chosen: set<nat>) {
    var due := DueIds(t, now);
    && chosen <= due
    && |chosen| <= limit
    && (forall e :: e in due && e !in chosen ==> |chosen| == limit && forall c :: c in chosen ==> c < e)
  }

  function ClaimedEntry(e: Entry, now: int, lease: int): Entry {
    e.(attempts := e.attempts + 1, availableAt := now + Interval(lease))
  }

  function ClaimRows(t: Rows, chosen: set<nat>, now: int, lease: int): Rows {
    map id | id in t :: if id in chosen then ClaimedEntry(t[id], now, lease) else t[id]
  }

  function DispatchedEntry(e: Entry, now: int): Entry {
    e.(dispatchedAt := Some(now), lastError := "")
  }

  function FailedEntry(e: Entry, error: string, delay: int, now: int): Entry {
    e.(lastError := error, availableAt := now + Interval(delay))
  }

  function WithDispatched(t: Rows, id: nat, now: int): Rows {
    if id in t then t[id := DispatchedEntry(t[id], now)] else t
  }

  function WithFailed(t: Rows, id: nat, error: string, delay: int, now: int): Rows {
    if id in t then t[id := FailedEntry(t[id], error, delay, now)] else t
  }
}
