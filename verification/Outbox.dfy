/** The outbox store, the bus and the publisher as they run in one process. */
module Outbox {
  import opened Backoff
  import opened Documents
  import opened Envelopes
  import opened OutboxTable

  // A row as a claim returns it.
  datatype Claimed = Claimed(id: nat, kind: string, key: string, payload: Json, attempts: nat)

  function ClaimedOf(id: nat, e: Entry): Claimed {
    Claimed(id, e.kind, KeyText(e), e.payload, e.attempts)
  }

  // Not dispatched, and available.
  predicate WaitsAt(e: Entry, now: int) {
    e.dispatchedAt == None && e.availableAt <= now
  }

  lemma BatchWaits(t: Rows, limit: nat, now: int, returned: seq<nat>)
    requires Distinct(returned) && IsBatch(t, limit, now, Elements(returned))
    ensures |returned| <= limit
    ensures forall i :: 0 <= i < |returned| ==> returned[i] in t && WaitsAt(t[returned[i]], now)
    ensures forall id :: id in t && id !in returned && WaitsAt(t[id], now) ==>
      |returned| == limit && forall i :: 0 <= i < |returned| ==> returned[i] < id
  {
    DistinctSize(returned);
    assert forall i :: 0 <= i < |returned| ==> returned[i] in Elements(returned);
    forall id | id in t && id !in returned && WaitsAt(t[id], now)
      ensures |returned| == limit && forall i :: 0 <= i < |returned| ==> returned[i] < id
    {
      assert id in DueIds(t, now) && id !in Elements(returned);
    }
  }

  class OutboxStore {
    var rows: Rows
    var nextId: nat

    ghost predicate Valid()
      reads this
    {
      forall id :: id in rows ==> id < nextId
    }

    constructor ()
      ensures Valid() && rows == map[]
    {
      rows := map[];
      nextId := 0;
    }

    // up says whether the insert succeeds.
    method Enqueue(kind: string, key: string, payload: Json, now: int, up: bool) returns (r: Result<bool>)
      requires Valid()
      modifies this
      ensures Valid() && (r.Ok? <==> up)
      ensures r.Err? ==> rows == old(rows)
      ensures r.Ok? ==>
        old(nextId) !in old(rows) && rows == old(rows)[old(nextId) := NewEntry(kind, key, payload, now)]
      ensures r.Ok? ==>
        && old(nextId) in rows
        && rows[old(nextId)] == Entry(kind, if key == "" then None else Some(key), payload, now, 0, "", None)
    {
      if !up {
        return Err("insert outbox row");
      }
      rows := rows[nextId := NewEntry(kind, key, payload, now)];
      nextId := nextId + 1;
      r := Ok(true);
    }

    // returned is the order in which the database hands back the rows it chose.
    method ClaimBatch(limit: int, lease: int, now: int, returned: seq<nat>) returns (out: seq<Claimed>)
      requires Distinct(returned) && IsBatch(rows, EffectiveLimit(limit, 32), now, Elements(returned))
      modifies this`rows
      ensures rows == ClaimRows(old(rows), Elements(returned), now, lease)
      ensures |out| == |returned|
      ensures forall i :: 0 <= i < |out| ==>
        returned[i] in rows && out[i] == ClaimedOf(returned[i], rows[returned[i]])
      ensures |out| <= if limit <= 0 then 32 else limit
      ensures forall i :: 0 <= i < |out| ==>
        && returned[i] in old(rows) && WaitsAt(old(rows)[returned[i]], now)
        && var e := old(rows)[returned[i]];
           && out[i] == Claimed(returned[i], e.kind, if e.key == None then "" else e.key.value, e.payload,
                                e.attempts + 1)
           && returned[i] in rows
           && rows[returned[i]] ==
              Entry(e.kind, e.key, e.payload, now + Interval(lease), e.attempts + 1, e.lastError, None)
      ensures rows.Keys == old(rows).Keys && forall id :: id in rows && id !in returned ==> rows[id] == old(rows)[id]
      ensures forall id :: id in old(rows) && id !in returned && WaitsAt(old(rows)[id], now) ==>
        |out| == (if limit <= 0 then 32 else limit) && forall i :: 0 <= i < |out| ==> returned[i] < id
    {
      BatchWaits(rows, EffectiveLimit(limit, 32), now, returned);
      rows := ClaimRows(rows, Elements(returned), now, lease);
      out := [];
      var i := 0;
      while i < |returned|
        invariant 0 <= i <= |returned| && |out| == i
        invariant forall k :: 0 <= k < i ==>
          returned[k] in rows && out[k] == ClaimedOf(returned[k], rows[returned[k]])
      {
        assert returned[i] in Elements(returned);
        out := out + [ClaimedOf(returned[i], rows[returned[i]])];
        i := i + 1;
      }
    }

    method MarkDispatched(id: nat, now: int)
      modifies this`rows
      ensures rows == WithDispatched(old(rows), id, now)
      ensures rows.Keys == old(rows).Keys && forall k :: k in rows && k != id ==> rows[k] == old(rows)[k]
      ensures id in rows ==>
        && rows[id].dispatchedAt == Some(now) && rows[id].lastError == ""
        && rows[id].kind == old(rows)[id].kind && rows[id].key == old(rows)[id].key
        && rows[id].payload == old(rows)[id].payload
        && rows[id].attempts == old(rows)[id].attempts && rows[id].availableAt == old(rows)[id].availableAt
    {
      if id in rows {
        rows := rows[id := DispatchedEntry(rows[id], now)];
      }
    }

    method MarkFailed(id: nat, error: string, delay: int, now: int)
      modifies this`rows
      ensures rows == WithFailed(old(rows), id, error, delay, now)
      ensures rows.Keys == old(rows).Keys && forall k :: k in rows && k != id ==> rows[k] == old(rows)[k]
      ensures id in rows ==>
        && rows[id].dispatchedAt == old(rows)[id].dispatchedAt
        && rows[id].lastError == error && rows[id].availableAt == now + Interval(delay)
        && rows[id].kind == old(rows)[id].kind && rows[id].key == old(rows)[id].key
        && rows[id].payload == old(rows)[id].payload && rows[id].attempts == old(rows)[id].attempts
    {
      if id in rows {
        rows := rows[id := FailedEntry(rows[id], error, delay, now)];
      }
    }
  }

  class Bus {
    const enabled: bool
    const hasWriter: bool
    var store: OutboxStore?
    var topic: seq<Message>

    constructor (enabled: bool, brokers: nat)
      ensures this.enabled == this.hasWriter == (enabled && brokers > 0)
      ensures store == null && topic == []
    {
      this.enabled := enabled && brokers > 0;
      this.hasWriter := enabled && brokers > 0;
      store := null;
      topic := [];
    }

    method SetOutbox(s: OutboxStore)
      modifies this`store
      ensures store == s
    {
      store := s;
    }

    // data is the marshalled event; up says whether the outbox takes the row.
    method Publish(kind: string, key: string, data: Result<Json>, freshId: string, now: int, up: bool, ack: Ack)
      returns (r: Result<bool>)
      requires store != null ==> store.Valid()
      modifies this`topic, store
      ensures store != null ==> store.Valid()
      ensures !enabled || data.Err? || store != null ==> topic == old(topic)
      ensures !enabled ==> r.Ok?
      ensures store != null && (!enabled || data.Err? || !up) ==> store.rows == old(store.rows)
      ensures enabled && data.Ok? && store != null ==> r.Ok?
      ensures enabled && data.Ok? && store != null && up ==>
        var e := NewEnvelope(kind, data.value, freshId);
        && old(store.nextId) !in old(store.rows)
        && store.rows == old(store.rows)[old(store.nextId) := NewEntry(kind, KeyOrId(key, e), Encode(e), now)]
      ensures enabled && data.Ok? && store == null ==>
        var e := NewEnvelope(kind, data.value, freshId);
        && (r.Ok? <==> hasWriter && ack == Acked)
        && topic == old(topic) + WrittenBy(hasWriter, MessageFor(e, KeyOrId(key, e)), ack)
      ensures enabled && data.Err? ==> r.Err?
      ensures enabled && data.Ok? && store != null && up ==>
        var k := if key == "" then freshId else key;
        && old(store.nextId) in store.rows
        && store.rows[old(store.nextId)].payload.JObject?
        && IsEvent(Message(k, store.rows[old(store.nextId)].payload, [("ce-type", kind), ("ce-source", SOURCE)]),
                   kind, key, data.value, freshId)
        && store.rows[old(store.nextId)].kind == kind
        && store.rows[old(store.nextId)].key == (if k == "" then None else Some(k))
        && store.rows[old(store.nextId)].availableAt == now && store.rows[old(store.nextId)].attempts == 0
        && store.rows[old(store.nextId)].dispatchedAt == None
      ensures enabled && data.Ok? && store == null && hasWriter && ack != Refused ==>
        && |topic| == |old(topic)| + 1 && old(topic) <= topic
        && IsEvent(topic[|old(topic)|], kind, key, data.value, freshId)
      ensures enabled && data.Ok? && store == null && (!hasWriter || ack == Refused) ==> topic == old(topic)
    {
      if !enabled {
        return Ok(false);
      }
      if data.Err? {
        return Err(data.error);
      }
      var e := NewEnvelope(kind, data.value, freshId);
      var k := KeyOrId(key, e);
      if store != null {
        // An event the outbox does not take is logged and dropped.
        var stored := store.Enqueue(kind, k, Encode(e), now, up);
        return Ok(stored.Ok?);
      }
      r := WriteEnvelope(e, k, ack);
    }

    // Without a writer nothing is written and nothing is reported.
    method DispatchOutbox(kind: string, key: string, payload: Json, freshId: string, ack: Ack)
      returns (r: Result<bool>)
      modifies this`topic
      ensures r.Ok? <==> DispatchError(Writes(), kind, key, payload, freshId, ack).None?
      ensures r.Err? ==> DispatchError(Writes(), kind, key, payload, freshId, ack) == Some(r.error)
      ensures topic == old(topic) + Dispatched(Writes(), kind, key, payload, freshId, ack)
      ensures !(enabled && hasWriter) ==> r.Ok? && topic == old(topic)
      ensures enabled && hasWriter && Decode(payload).Err? ==> r == Err(Decode(payload).error) && topic == old(topic)
      ensures enabled && hasWriter && Decode(payload).Ok? ==>
        && (r.Ok? <==> ack == Acked)
        && (r.Err? ==> r.error == "kafka publish")
        && (ack == Refused ==> topic == old(topic))
        && (ack != Refused ==>
              && |topic| == |old(topic)| + 1 && old(topic) <= topic
              && IsDispatchOf(topic[|old(topic)|], kind, key, Decode(payload).value, freshId))
    {
      if !enabled || !hasWriter {
        return Ok(false);
      }
      match Decode(payload) {
        case Err(e) =>
          return Err(e);
        case Ok(stored) =>
          var e := stored;
          if e.kind == "" {
            e := e.(kind := kind);
          }
          if e.id == "" {
            e := e.(id := freshId);
          }
          if e.source == "" {
            e := e.(source := SOURCE);
          }
          if e.specVersion == "" {
            e := e.(specVersion := SPEC_VERSION);
          }
          assert e == Completed(stored, kind, freshId);
          r := WriteEnvelope(e, KeyOrId(key, e), ack);
      }
    }

    predicate Writes() {
      enabled && hasWriter
    }

    method WriteEnvelope(e: Envelope, key: string, ack: Ack) returns (r: Result<bool>)
      modifies this`topic
      ensures r.Ok? <==> hasWriter && ack == Acked
      ensures r.Err? ==> r.error == "kafka publish"
      ensures topic == old(topic) + WrittenBy(hasWriter, MessageFor(e, key), ack)
      ensures !hasWriter || ack == Refused ==> topic == old(topic)
      ensures hasWriter && ack != Refused ==>
        && |topic| == |old(topic)| + 1 && old(topic) <= topic
        && Carries(topic[|old(topic)|], key, e.specVersion, e.id, e.source, e.kind, e.data)
    {
      if hasWriter && ack != Refused {
        topic := topic + [MessageFor(e, key)];
      }
      if !hasWriter || ack != Acked {
        return Err("kafka publish");
      }
      r := Ok(true);
    }
  }

  // What one drain sees of the world for each row in turn: how its write ends, the id the envelope
  // would be given if it had none, whether the mark that follows is stored, and when.
  datatype Turn = Turn(ack: Ack, freshId: string, stored: bool, now: int)

  function TurnError(writes: bool, c: Claimed, t: Turn): Option<string> {
    DispatchError(writes, c.kind, c.key, c.payload, t.freshId, t.ack)
  }

  // What a drain leaves of a row it claimed.
  function Drained(writes: bool, e: Entry, c: Claimed, t: Turn, outOfRange: int): Entry {
    if !t.stored then e
    else match TurnError(writes, c, t)
         case None => DispatchedEntry(e, t.now)
         case Some(error) => FailedEntry(e, error, Delay(c.attempts, FIVE_MINUTES, outOfRange), t.now)
  }

  function AfterTurn(writes: bool, rows: Rows, c: Claimed, t: Turn, outOfRange: int): Rows {
    if c.id in rows then rows[c.id := Drained(writes, rows[c.id], c, t, outOfRange)] else rows
  }

  // The table after the turns of the first n rows of a batch.
  function AfterTurns(writes: bool, rows: Rows, batch: seq<Claimed>, turns: seq<Turn>, n: nat, outOfRange: int): Rows
    requires n <= |batch| == |turns|
  {
    if n == 0 then rows
    else
      var before := AfterTurns(writes, rows, batch, turns, n - 1, outOfRange);
      AfterTurn(writes, before, batch[n - 1], turns[n - 1], outOfRange)
  }

  // The messages the first n rows of a batch put on the topic.
  function Sent(writes: bool, batch: seq<Claimed>, turns: seq<Turn>, n: nat): seq<Message>
    requires n <= |batch| == |turns|
  {
    if n == 0 then []
    else
      var c, t := batch[n - 1], turns[n - 1];
      Sent(writes, batch, turns, n - 1) + Dispatched(writes, c.kind, c.key, c.payload, t.freshId, t.ack)
  }

  lemma SentNext(topic: seq<Message>, writes: bool, batch: seq<Claimed>, turns: seq<Turn>, n: nat)
    requires n < |batch| == |turns|
    ensures var c, t := batch[n], turns[n];
            topic + Sent(writes, batch, turns, n + 1) ==
            topic + Sent(writes, batch, turns, n) + Dispatched(writes, c.kind, c.key, c.payload, t.freshId, t.ack)
  {
  }

  // The row `before` once a drain that claimed it at `now` is through with it: dispatched exactly when
  // the mark was stored and there was nothing to write to or the decoded message was acknowledged.
  ghost predicate DealtWith(after: Entry, before: Entry, writes: bool, t: Turn, now: int, outOfRange: int) {
    && after.kind == before.kind && after.key == before.key && after.payload == before.payload
    && after.attempts == before.attempts + 1
    && (after.dispatchedAt == None <==> !(t.stored && (!writes || (Decode(before.payload).Ok? && t.ack == Acked))))
    && (after.dispatchedAt != None ==>
          after.dispatchedAt == Some(t.now) && after.lastError == "" && after.availableAt == now + 1_000_000_000)
    && (!t.stored ==> after.lastError == before.lastError && after.availableAt == now + 1_000_000_000)
    && (t.stored && after.dispatchedAt == None ==>
          && after.availableAt == t.now + Interval(Delay(before.attempts + 1, 300_000_000_000, outOfRange))
          && after.lastError == if Decode(before.payload).Ok? then "kafka publish" else Decode(before.payload).error)
  }

  ghost predicate RowDealtWith(before: Rows, after: Rows, returned: seq<nat>, claimed: seq<Claimed>, writes: bool,
                               turns: seq<Turn>, i: nat, now: int, outOfRange: int)
    requires i < |returned| == |claimed| == |turns|
  {
    && returned[i] in before && returned[i] in after && before[returned[i]].dispatchedAt == None
    && var e := before[returned[i]];
       && DealtWith(after[returned[i]], e, writes, turns[i], now, outOfRange)
       && claimed[i] == Claimed(returned[i], e.kind, if e.key == None then "" else e.key.value, e.payload,
                                e.attempts + 1)
  }

  // Each claimed row is dealt with as its own write and mark went, and no other row changes.
  ghost predicate EachDealtWith(before: Rows, after: Rows, returned: seq<nat>, claimed: seq<Claimed>, writes: bool,
                                turns: seq<Turn>, now: int, outOfRange: int)
    requires |returned| == |claimed| == |turns|
  {
    && after.Keys == before.Keys
    && (forall id :: id in before && id !in returned ==> after[id] == before[id])
    && (forall i :: 0 <= i < |returned| ==>
          RowDealtWith(before, after, returned, claimed, writes, turns, i, now, outOfRange))
  }

  lemma DrainedIsDealtWith(e: Entry, id: nat, writes: bool, t: Turn, now: int, outOfRange: int)
    requires e.dispatchedAt == None
    ensures var taken := ClaimedEntry(e, now, SECOND);
            DealtWith(Drained(writes, taken, ClaimedOf(id, taken), t, outOfRange), e, writes, t, now, outOfRange)
  {
    RedispatchCompletes(e.kind, KeyText(e), e.payload, t.freshId);
    assert Interval(SECOND) == SECOND;
  }

  // What the first n rows of a drain put on the topic: the messages of those rows whose payload decodes
  // and whose write was not refused, in order. picks are their positions.
  ghost predicate SentInOrder(picks: seq<nat>, before: seq<Message>, after: seq<Message>, writes: bool,
                              batch: seq<Claimed>, turns: seq<Turn>, n: nat)
    requires n <= |batch| == |turns|
  {
    && |after| == |before| + |picks| && before <= after
    && (forall p :: 0 <= p < |picks| ==>
          && picks[p] < n && Reaches(writes, batch[picks[p]], turns[picks[p]])
          && IsDispatchOf(after[|before| + p], batch[picks[p]].kind, batch[picks[p]].key,
                          Decode(batch[picks[p]].payload).value, turns[picks[p]].freshId))
    && (forall p, q :: 0 <= p < q < |picks| ==> picks[p] < picks[q])
    && (forall i :: 0 <= i < n && Reaches(writes, batch[i], turns[i]) ==> i in picks)
  }

  predicate Reaches(writes: bool, c: Claimed, t: Turn) {
    writes && Decode(c.payload).Ok? && t.ack != Refused
  }

  lemma {:induction false} SentIsInOrder(topic: seq<Message>, writes: bool, batch: seq<Claimed>, turns: seq<Turn>,
                                         n: nat)
    returns (picks: seq<nat>)
    requires n <= |batch| == |turns|
    ensures SentInOrder(picks, topic, topic + Sent(writes, batch, turns, n), writes, batch, turns, n)
  {
    if n == 0 {
      picks := [];
    } else {
      var before := SentIsInOrder(topic, writes, batch, turns, n - 1);
      var c, t := batch[n - 1], turns[n - 1];
      var more := Dispatched(writes, c.kind, c.key, c.payload, t.freshId, t.ack);
      LastSent(writes, c, t);
      picks := OneMoreTurn(before, topic, topic + Sent(writes, batch, turns, n - 1), more, writes, batch, turns, n);
      SentNext(topic, writes, batch, turns, n - 1);
    }
  }

  // What one row puts on the topic.
  predicate SentFor(more: seq<Message>, writes: bool, c: Claimed, t: Turn) {
    if Reaches(writes, c, t) then
      |more| == 1 && IsDispatchOf(more[0], c.kind, c.key, Decode(c.payload).value, t.freshId)
    else more == []
  }

  lemma LastSent(writes: bool, c: Claimed, t: Turn)
    ensures SentFor(Dispatched(writes, c.kind, c.key, c.payload, t.freshId, t.ack), writes, c, t)
  {
    RedispatchCompletes(c.kind, c.key, c.payload, t.freshId);
  }

  lemma OneMoreTurn(picks: seq<nat>, topic: seq<Message>, now: seq<Message>, more: seq<Message>, writes: bool,
                    batch: seq<Claimed>, turns: seq<Turn>, n: nat)
    returns (longer: seq<nat>)
    requires 0 < n <= |batch| == |turns| && SentInOrder(picks, topic, now, writes, batch, turns, n - 1)
    requires SentFor(more, writes, batch[n - 1], turns[n - 1])
    ensures SentInOrder(longer, topic, now + more, writes, batch, turns, n)
  {
    longer := picks;
    if Reaches(writes, batch[n - 1], turns[n - 1]) {
      longer := picks + [n - 1];
      assert more == [more[0]];
      OneMoreSent(picks, topic, now, more[0], writes, batch, turns, n);
    } else {
      assert now + more == now;
    }
  }

  lemma OneMoreSent(picks: seq<nat>, topic: seq<Message>, now: seq<Message>, m: Message, writes: bool,
                    batch: seq<Claimed>, turns: seq<Turn>, n: nat)
    requires 0 < n <= |batch| == |turns| && SentInOrder(picks, topic, now, writes, batch, turns, n - 1)
    requires Reaches(writes, batch[n - 1], turns[n - 1])
    requires var c := batch[n - 1];
             IsDispatchOf(m, c.kind, c.key, Decode(c.payload).value, turns[n - 1].freshId)
    ensures SentInOrder(picks + [n - 1], topic, now + [m], writes, batch, turns, n)
  {
    var more := picks + [n - 1];
    forall i | 0 <= i < n && Reaches(writes, batch[i], turns[i])
      ensures i in more
    {
      assert more[|picks|] == n - 1;
      assert i < n - 1 ==> i in picks;
    }
  }

  class Publisher {
    const store: OutboxStore
    const bus: Bus
    const batch: nat
    const maxBackoff: int
    const outOfRange: int

    constructor (store: OutboxStore, bus: Bus, outOfRange: int)
      ensures this.store == store && this.bus == bus && batch == 32 && maxBackoff == FIVE_MINUTES == 300_000_000_000
      ensures this.outOfRange == outOfRange
    {
      this.store := store;
      this.bus := bus;
      batch := 32;
      maxBackoff := FIVE_MINUTES;
      this.outOfRange := outOfRange;
    }

    // One drain that nothing else interleaves with. returned is the batch the database hands over.
    method DrainOnce(returned: seq<nat>, turns: seq<Turn>, now: int) returns (n: nat, claimed: seq<Claimed>)
      requires batch > 0 && maxBackoff == FIVE_MINUTES && |turns| == |returned|
      requires Distinct(returned) && IsBatch(store.rows, batch, now, Elements(returned))
      modifies store`rows, bus`topic
      ensures n == |returned| == |claimed|
      ensures var taken := ClaimRows(old(store.rows), Elements(returned), now, SECOND);
              && (forall i :: 0 <= i < n ==>
                   returned[i] in taken && claimed[i] == ClaimedOf(returned[i], taken[returned[i]]))
              && SettledRows(taken, store.rows, returned, claimed, turns, n)
              && store.rows == AfterTurns(bus.Writes(), taken, claimed, turns, n, outOfRange)
      ensures bus.topic == old(bus.topic) + Sent(bus.Writes(), claimed, turns, n)
      ensures EachDealtWith(old(store.rows), store.rows, returned, claimed, bus.enabled && bus.hasWriter, turns, now,
                            outOfRange)
      ensures exists picks ::
        SentInOrder(picks, old(bus.topic), bus.topic, bus.Writes(), claimed, turns, |claimed|)
    {
      ghost var was, sent := store.rows, bus.topic;
      n, claimed := DrainBatch(returned, turns, now);
      ghost var taken := ClaimRows(was, Elements(returned), now, SECOND);
      SettledAreDealtWith(was, taken, store.rows, returned, claimed, turns, now);
      ghost var picks := SentIsInOrder(sent, bus.Writes(), claimed, turns, |claimed|);
    }

    method DrainBatch(returned: seq<nat>, turns: seq<Turn>, now: int) returns (n: nat, claimed: seq<Claimed>)
      requires batch > 0 && maxBackoff == FIVE_MINUTES && |turns| == |returned|
      requires Distinct(returned) && IsBatch(store.rows, batch, now, Elements(returned))
      modifies store`rows, bus`topic
      ensures n == |returned| == |claimed|
      ensures var taken := ClaimRows(old(store.rows), Elements(returned), now, SECOND);
              && (forall i :: 0 <= i < n ==>
                   returned[i] in taken && claimed[i] == ClaimedOf(returned[i], taken[returned[i]]))
              && SettledRows(taken, store.rows, returned, claimed, turns, n)
              && store.rows == AfterTurns(bus.Writes(), taken, claimed, turns, n, outOfRange)
      ensures bus.topic == old(bus.topic) + Sent(bus.Writes(), claimed, turns, n)
    {
      claimed := store.ClaimBatch(batch, SECOND, now, returned);
      n := DispatchRows(returned, claimed, turns);
    }

    // Writes and marks the claimed rows one after the other.
    method DispatchRows(ghost returned: seq<nat>, claimed: seq<Claimed>, turns: seq<Turn>) returns (n: nat)
      requires maxBackoff == FIVE_MINUTES && |returned| == |claimed| == |turns| && Distinct(returned)
      requires forall i :: 0 <= i < |returned| ==> returned[i] in store.rows && claimed[i].id == returned[i]
      modifies store`rows, bus`topic
      ensures n == |claimed|
      ensures UnderWay(old(store.rows), store.rows, old(bus.topic), bus.topic, returned, claimed, turns, n)
    {
      ghost var before, sent := store.rows, bus.topic;
      n := 0;
      UnderWayStart(before, sent, returned, claimed, turns);
      while n < |claimed|
        invariant n <= |claimed|
        invariant UnderWay(before, store.rows, sent, bus.topic, returned, claimed, turns, n)
      {
        ghost var rows, topic := store.rows, bus.topic;
        DrainRow(claimed[n], turns[n]);
        UnderWayStep(before, rows, store.rows, sent, topic, bus.topic, returned, claimed, turns, n);
        n := n + 1;
      }
    }

    lemma UnderWayStart(rows: Rows, topic: seq<Message>, returned: seq<nat>, claimed: seq<Claimed>, turns: seq<Turn>)
      requires |returned| == |claimed| == |turns|
      ensures UnderWay(rows, rows, topic, topic, returned, claimed, turns, 0)
    {
    }

    // What a drain has done once it is through with the first n rows of its batch.
    ghost predicate UnderWay(before: Rows, rows: Rows, sent: seq<Message>, topic: seq<Message>, returned: seq<nat>,
                             claimed: seq<Claimed>, turns: seq<Turn>, n: nat)
      requires n <= |returned| == |claimed| == |turns|
    {
      && SettledRows(before, rows, returned, claimed, turns, n)
      && rows == AfterTurns(bus.Writes(), before, claimed, turns, n, outOfRange)
      && topic == sent + Sent(bus.Writes(), claimed, turns, n)
    }

    lemma UnderWayStep(before: Rows, rows: Rows, next: Rows, sent: seq<Message>, topic: seq<Message>,
                       longer: seq<Message>, returned: seq<nat>, claimed: seq<Claimed>, turns: seq<Turn>, n: nat)
      requires n < |returned| == |claimed| == |turns| && Distinct(returned)
      requires returned[n] in before && claimed[n].id == returned[n]
      requires UnderWay(before, rows, sent, topic, returned, claimed, turns, n)
      requires next == AfterTurn(bus.Writes(), rows, claimed[n], turns[n], outOfRange)
      requires var c, t := claimed[n], turns[n];
               longer == topic + Dispatched(bus.Writes(), c.kind, c.key, c.payload, t.freshId, t.ack)
      ensures UnderWay(before, next, sent, longer, returned, claimed, turns, n + 1)
    {
      SettleOne(before, rows, returned, claimed, turns, n);
      SentNext(sent, bus.Writes(), claimed, turns, n);
    }

    lemma SettledAreDealtWith(was: Rows, taken: Rows, after: Rows, returned: seq<nat>, claimed: seq<Claimed>,
                              turns: seq<Turn>, now: int)
      requires |returned| == |claimed| == |turns| && Distinct(returned) && IsBatch(was, batch, now, Elements(returned))
      requires taken == ClaimRows(was, Elements(returned), now, SECOND)
      requires forall i :: 0 <= i < |returned| ==>
        returned[i] in taken && claimed[i] == ClaimedOf(returned[i], taken[returned[i]])
      requires SettledRows(taken, after, returned, claimed, turns, |returned|)
      ensures EachDealtWith(was, after, returned, claimed, bus.Writes(), turns, now, outOfRange)
    {
      BatchWaits(was, batch, now, returned);
      assert returned[..|returned|] == returned;
      forall i | 0 <= i < |returned|
        ensures RowDealtWith(was, after, returned, claimed, bus.Writes(), turns, i, now, outOfRange)
      {
        assert returned[i] in Elements(returned);
        DrainedIsDealtWith(was[returned[i]], returned[i], bus.Writes(), turns[i], now, outOfRange);
      }
    }

    // The first n rows of the batch are as the drain leaves them, the others as they were claimed.
    ghost predicate SettledRows(before: Rows, rows: Rows, returned: seq<nat>, claimed: seq<Claimed>,
                                turns: seq<Turn>, n: nat)
      requires n <= |returned| == |claimed| == |turns|
    {
      && rows.Keys == before.Keys
      && (forall id :: id in rows && id !in returned[..n] ==> rows[id] == before[id])
      && (forall k :: 0 <= k < n ==>
            && returned[k] in before
            && rows[returned[k]] == Drained(bus.Writes(), before[returned[k]], claimed[k], turns[k], outOfRange))
    }

    lemma SettleOne(before: Rows, rows: Rows, returned: seq<nat>, claimed: seq<Claimed>, turns: seq<Turn>, n: nat)
      requires n < |returned| == |claimed| == |turns| && Distinct(returned)
      requires returned[n] in before && claimed[n].id == returned[n]
      requires SettledRows(before, rows, returned, claimed, turns, n)
      ensures SettledRows(before, AfterTurn(bus.Writes(), rows, claimed[n], turns[n], outOfRange),
                          returned, claimed, turns, n + 1)
    {
      assert returned[n] !in returned[..n];
      assert returned[..n + 1] == returned[..n] + [returned[n]];
    }

    method DrainRow(c: Claimed, t: Turn)
      requires maxBackoff == FIVE_MINUTES
      modifies store`rows, bus`topic
      ensures store.rows == AfterTurn(bus.Writes(), old(store.rows), c, t, outOfRange)
      ensures bus.topic == old(bus.topic) + Dispatched(bus.Writes(), c.kind, c.key, c.payload, t.freshId, t.ack)
    {
      var r := bus.DispatchOutbox(c.kind, c.key, c.payload, t.freshId, t.ack);
      if t.stored {
        if r.Err? {
          store.MarkFailed(c.id, r.error, Delay(c.attempts, maxBackoff, outOfRange), t.now);
        } else {
          store.MarkDispatched(c.id, t.now);
        }
      }
    }
  }
}
