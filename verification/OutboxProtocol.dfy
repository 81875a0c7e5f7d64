/** The outbox as a step system: events published by many requests, any number of drains claiming,
    writing and marking rows in any interleaving, crashes, lost marks, unacknowledged writes and
    the clock. */
module OutboxProtocol {
  import opened Backoff
  import opened Documents
  import opened Envelopes
  import opened OutboxTable
  import opened Outbox

  // A drain at work on a claimed batch; answer is what the write of the row at `next` reported.
  datatype Drain = Drain(batch: seq<Claimed>, next: nat, answer: Option<Option<string>>)

  // How a write of a row ended.
  datatype Try = Try(row: nat, ack: Ack)

  // A message on the topic, with the row it came from.
  datatype Delivery = Delivery(row: nat, message: Message)

  datatype State = State(
    writes: bool,
    outOfRange: int,
    rows: Rows,
    nextId: nat,
    published: map<nat, Message>,
    topic: seq<Delivery>,
    tried: set<Try>,
    drains: map<nat, Drain>,
    now: int
  )

  datatype Step =
    | Tick(elapsed: nat)
    | Publish(kind: string, key: string, data: Json, freshId: string)
    | LoseInsert
    | ClaimBatch(drain: nat, locked: set<nat>, returned: seq<nat>)
    | Write(drain: nat, ack: Ack, freshId: string)
    | Mark(drain: nat, stored: bool)
    | Crash(drain: nat)

  const BATCH: nat := 32

  ghost predicate Init(s: State) {
    s.rows == map[] && s.published == map[] && s.topic == [] && s.tried == {} && s.drains == map[]
  }

  // Rows that other claims have locked are passed over.
  function Unlocked(t: Rows, locked: set<nat>): Rows {
    map id | id in t && id !in locked :: t[id]
  }

  predicate At(s: State, k: nat) {
    k in s.drains && s.drains[k].next < |s.drains[k].batch|
  }

  function Current(s: State, k: nat): Claimed
    requires At(s, k)
  {
    s.drains[k].batch[s.drains[k].next]
  }

  ghost predicate Enabled(s: State, step: Step) {
    match step
    case Tick(elapsed) => true
    case Publish(kind, key, data, freshId) => freshId != ""
    case LoseInsert => true
    case ClaimBatch(k, locked, returned) =>
      && k !in s.drains && Distinct(returned)
      && IsBatch(Unlocked(s.rows, locked), BATCH, s.now, Elements(returned))
    case Write(k, ack, freshId) => At(s, k) && s.drains[k].answer.None?
    case Mark(k, stored) => At(s, k) && s.drains[k].answer.Some?
    case Crash(k) => k in s.drains
  }

  // An event a request publishes, as it is stored.
  function AfterPublish(s: State, kind: string, key: string, data: Json, freshId: string): State {
    var e := NewEnvelope(kind, data, freshId);
    var k := KeyOrId(key, e);
    s.(rows := s.rows[s.nextId := NewEntry(kind, k, Encode(e), s.now)],
       published := s.published[s.nextId := MessageFor(e, k)],
       nextId := s.nextId + 1)
  }

  function ClaimedRows(t: Rows, returned: seq<nat>): (batch: seq<Claimed>)
    requires forall i :: 0 <= i < |returned| ==> returned[i] in t
    ensures |batch| == |returned|
    ensures forall i :: 0 <= i < |batch| ==> batch[i] == ClaimedOf(returned[i], t[returned[i]])
  {
    seq(|returned|, i requires 0 <= i < |returned| && returned[i] in t => ClaimedOf(returned[i], t[returned[i]]))
  }

  function AfterClaim(s: State, k: nat, returned: seq<nat>): State
    requires forall i :: 0 <= i < |returned| ==> returned[i] in s.rows
  {
    var t := ClaimRows(s.rows, Elements(returned), s.now, SECOND);
    s.(rows := t, drains := s.drains[k := Drain(ClaimedRows(t, returned), 0, None)])
  }

  function Deliveries(row: nat, ms: seq<Message>): (ds: seq<Delivery>)
    ensures |ds| == |ms|
    ensures forall i :: 0 <= i < |ds| ==> ds[i] == Delivery(row, ms[i])
  {
    seq(|ms|, i requires 0 <= i < |ms| => Delivery(row, ms[i]))
  }

  function AfterWrite(s: State, k: nat, ack: Ack, freshId: string): State
    requires At(s, k)
  {
    var c := Current(s, k);
    var error := DispatchError(s.writes, c.kind, c.key, c.payload, freshId, ack);
    s.(topic := s.topic + Deliveries(c.id, Dispatched(s.writes, c.kind, c.key, c.payload, freshId, ack)),
       tried := s.tried + {Try(c.id, ack)},
       drains := s.drains[k := s.drains[k].(answer := Some(error))])
  }

  // The update that follows a write, applied now, however late.
  function MarkedRows(s: State, k: nat): Rows
    requires At(s, k) && s.drains[k].answer.Some?
  {
    var c := Current(s, k);
    match s.drains[k].answer.value
    case None => WithDispatched(s.rows, c.id, s.now)
    case Some(error) => WithFailed(s.rows, c.id, error, Delay(c.attempts, FIVE_MINUTES, s.outOfRange), s.now)
  }

  function AfterMark(s: State, k: nat, stored: bool): State
    requires At(s, k) && s.drains[k].answer.Some?
  {
    s.(rows := if stored then MarkedRows(s, k) else s.rows,
       drains := s.drains[k := s.drains[k].(next := s.drains[k].next + 1, answer := None)])
  }

  lemma BatchIsDue(s: State, k: nat, locked: set<nat>, returned: seq<nat>)
    requires Enabled(s, ClaimBatch(k, locked, returned))
    ensures forall i :: 0 <= i < |returned| ==> returned[i] in s.rows && IsDue(s.rows[returned[i]], s.now)
    ensures forall id :: id in Elements(returned) ==> id in s.rows && IsDue(s.rows[id], s.now)
  {
    var t := Unlocked(s.rows, locked);
    forall id | id in Elements(returned)
      ensures id in s.rows && IsDue(s.rows[id], s.now)
    {
      assert id in DueIds(t, s.now);
    }
    assert forall i :: 0 <= i < |returned| ==> returned[i] in Elements(returned);
  }

  predicate Returnable(s: State, step: Step) {
    step.ClaimBatch? ==> forall i :: 0 <= i < |step.returned| ==> step.returned[i] in s.rows
  }

  ghost function Apply(s: State, step: Step): State
    requires Enabled(s, step) && Returnable(s, step)
  {
    match step
    case Tick(elapsed) => s.(now := s.now + elapsed)
    case Publish(kind, key, data, freshId) => AfterPublish(s, kind, key, data, freshId)
    case LoseInsert => s.(nextId := s.nextId + 1)
    case ClaimBatch(k, locked, returned) => AfterClaim(s, k, returned)
    case Write(k, ack, freshId) => AfterWrite(s, k, ack, freshId)
    case Mark(k, stored) => AfterMark(s, k, stored)
    case Crash(k) => s.(drains := s.drains - {k})
  }

  lemma StepReturnable(s: State, step: Step)
    requires Enabled(s, step)
    ensures Returnable(s, step)
  {
    if step.ClaimBatch? {
      BatchIsDue(s, step.drain, step.locked, step.returned);
    }
  }

  // ---- The invariant of every run ----

  // Whatever id a redelivery draws, the row yields the message its event was published with.
  ghost predicate Faithful(kind: string, key: string, payload: Json, m: Message) {
    forall redrawn: string :: Redispatch(kind, key, payload, redrawn) == Ok(m)
  }

  // Some write of the row was acknowledged, or there is nothing to write to and it was dealt with.
  predicate Accepted(s: State, id: nat) {
    Try(id, Acked) in s.tried || (!s.writes && (Try(id, Unacked) in s.tried || Try(id, Refused) in s.tried))
  }

  ghost predicate RowOk(s: State, id: nat)
    requires id in s.rows
  {
    var e := s.rows[id];
    && id < s.nextId && id in s.published
    && Faithful(e.kind, KeyText(e), e.payload, s.published[id])
    && (e.dispatchedAt.Some? ==> Accepted(s, id))
    && (e.dispatchedAt.None? ==> e.availableAt <= s.now + FIVE_MINUTES)
  }

  ghost predicate DrainOk(s: State, k: nat)
    requires k in s.drains
  {
    var d := s.drains[k];
    && d.next <= |d.batch|
    && (forall i :: 0 <= i < |d.batch| ==> ClaimOk(s, d.batch[i]))
    && (d.answer == Some(None) ==> d.next < |d.batch| && Accepted(s, d.batch[d.next].id))
  }

  predicate ClaimOk(s: State, c: Claimed) {
    c.id in s.rows && c.kind == s.rows[c.id].kind && c.key == KeyText(s.rows[c.id]) && c.payload == s.rows[c.id].payload
  }

  predicate OnTopic(s: State, id: nat) {
    id in s.published && Delivery(id, s.published[id]) in s.topic
  }

  ghost predicate Inv(s: State) {
    && (forall id :: id in s.rows ==> RowOk(s, id))
    && (forall id :: id in s.published ==> id in s.rows)
    && (forall k :: k in s.drains ==> DrainOk(s, k))
    && (forall d :: d in s.topic ==> s.writes && d.row in s.published && d.message == s.published[d.row])
    && (s.writes ==> forall id :: Accepted(s, id) ==> OnTopic(s, id))
  }

  // Rows, once stored, keep what they carry; acceptance and publication are never taken back.
  ghost predicate Grows(s: State, t: State) {
    && (forall id :: id in s.rows ==>
          && id in t.rows
          && t.rows[id].kind == s.rows[id].kind && t.rows[id].key == s.rows[id].key
          && t.rows[id].payload == s.rows[id].payload)
    && (forall id :: id in s.published ==> id in t.published && t.published[id] == s.published[id])
    && s.tried <= t.tried && s.writes == t.writes && s.now <= t.now && s.nextId <= t.nextId
    && |s.topic| <= |t.topic| && t.topic[..|s.topic|] == s.topic
  }

  lemma DrainStaysOk(s: State, t: State, k: nat)
    requires k in s.drains && DrainOk(s, k) && Grows(s, t)
    requires k in t.drains && t.drains[k] == s.drains[k]
    ensures DrainOk(t, k)
  {
    forall i | 0 <= i < |t.drains[k].batch|
      ensures ClaimOk(t, t.drains[k].batch[i])
    {
      assert ClaimOk(s, s.drains[k].batch[i]);
    }
  }

  lemma StaysOnTopic(s: State, t: State, id: nat)
    requires Grows(s, t) && OnTopic(s, id)
    ensures OnTopic(t, id)
  {
    var i :| 0 <= i < |s.topic| && s.topic[i] == Delivery(id, s.published[id]);
    assert t.topic[..|s.topic|][i] == t.topic[i];
  }

  // A step that writes nothing to the topic, and changes no drain but k.
  lemma QuietStepInv(s: State, t: State, k: nat)
    requires Inv(s) && Grows(s, t) && t.topic == s.topic && t.tried == s.tried
    requires forall l :: l in t.drains && l != k ==> l in s.drains && t.drains[l] == s.drains[l]
    requires k in t.drains ==> DrainOk(t, k)
    requires forall id :: id in t.rows ==> RowOk(t, id)
    requires t.published.Keys <= t.rows.Keys
    ensures Inv(t)
  {
    forall l | l in t.drains
      ensures DrainOk(t, l)
    {
      if l != k {
        DrainStaysOk(s, t, l);
      }
    }
    forall id | Accepted(t, id) && t.writes
      ensures OnTopic(t, id)
    {
      StaysOnTopic(s, t, id);
    }
  }

  lemma PublishedRowOk(s: State, kind: string, key: string, data: Json, freshId: string)
    requires freshId != ""
    ensures RowOk(AfterPublish(s, kind, key, data, freshId), s.nextId)
  {
    var t, e := AfterPublish(s, kind, key, data, freshId), NewEnvelope(kind, data, freshId);
    assert KeyText(t.rows[s.nextId]) == KeyOrId(key, e);
    forall redrawn: string
      ensures Redispatch(kind, KeyOrId(key, e), Encode(e), redrawn) == Ok(MessageFor(e, KeyOrId(key, e)))
    {
      OutboxPathAgrees(kind, key, data, freshId, redrawn);
    }
  }

  lemma PublishInv(s: State, kind: string, key: string, data: Json, freshId: string)
    requires Inv(s) && freshId != ""
    ensures Inv(AfterPublish(s, kind, key, data, freshId))
    ensures Grows(s, AfterPublish(s, kind, key, data, freshId))
  {
    var t := AfterPublish(s, kind, key, data, freshId);
    forall id | id in t.rows
      ensures RowOk(t, id)
    {
      if id == s.nextId {
        PublishedRowOk(s, kind, key, data, freshId);
      } else {
        assert RowOk(s, id);
      }
    }
    forall k | k in t.drains
      ensures DrainOk(t, k)
    {
      assert DrainOk(s, k);
    }
    QuietStepInv(s, t, 0);
  }

  lemma ClaimInv(s: State, k: nat, locked: set<nat>, returned: seq<nat>)
    requires Inv(s) && Enabled(s, ClaimBatch(k, locked, returned)) && Returnable(s, ClaimBatch(k, locked, returned))
    ensures Inv(AfterClaim(s, k, returned)) && Grows(s, AfterClaim(s, k, returned))
  {
    var t := AfterClaim(s, k, returned);
    forall id | id in t.rows
      ensures RowOk(t, id)
    {
      assert RowOk(s, id);
    }
    QuietStepInv(s, t, k);
  }

  lemma WriteInv(s: State, k: nat, ack: Ack, freshId: string)
    requires Inv(s) && Enabled(s, Write(k, ack, freshId))
    ensures Inv(AfterWrite(s, k, ack, freshId)) && Grows(s, AfterWrite(s, k, ack, freshId))
  {
    var t, c := AfterWrite(s, k, ack, freshId), Current(s, k);
    assert DrainOk(s, k) && ClaimOk(s, c) && RowOk(s, c.id);
    assert Redispatch(c.kind, c.key, c.payload, freshId) == Ok(s.published[c.id]);
    forall id | id in t.rows
      ensures RowOk(t, id)
    {
      assert RowOk(s, id);
    }
    forall l | l in t.drains
      ensures DrainOk(t, l)
    {
      assert DrainOk(s, l);
      if l != k {
        DrainStaysOk(s, t, l);
      }
    }
    WrittenIsPublished(s, k, ack, freshId);
    AcceptedOnTopic(s, k, ack, freshId);
  }

  lemma WrittenIsPublished(s: State, k: nat, ack: Ack, freshId: string)
    requires Inv(s) && Enabled(s, Write(k, ack, freshId))
    requires var c := Current(s, k);
             c.id in s.published && Redispatch(c.kind, c.key, c.payload, freshId) == Ok(s.published[c.id])
    ensures var t := AfterWrite(s, k, ack, freshId);
            forall d :: d in t.topic ==> t.writes && d.row in t.published && d.message == t.published[d.row]
  {
  }

  lemma AcceptedOnTopic(s: State, k: nat, ack: Ack, freshId: string)
    requires Inv(s) && Enabled(s, Write(k, ack, freshId)) && Grows(s, AfterWrite(s, k, ack, freshId))
    requires var c := Current(s, k);
             c.id in s.published && Redispatch(c.kind, c.key, c.payload, freshId) == Ok(s.published[c.id])
    ensures var t := AfterWrite(s, k, ack, freshId);
            t.writes ==> forall id :: Accepted(t, id) ==> OnTopic(t, id)
  {
    var t := AfterWrite(s, k, ack, freshId);
    forall id | Accepted(t, id) && t.writes
      ensures OnTopic(t, id)
    {
      if Accepted(s, id) {
        StaysOnTopic(s, t, id);
      } else {
        assert t.topic[|s.topic|] == Delivery(id, s.published[id]);
      }
    }
  }

  lemma MarkInv(s: State, k: nat, stored: bool)
    requires Inv(s) && Enabled(s, Mark(k, stored))
    ensures Inv(AfterMark(s, k, stored)) && Grows(s, AfterMark(s, k, stored))
  {
    var t := AfterMark(s, k, stored);
    MarkGrows(s, k, stored);
    forall id | id in t.rows
      ensures RowOk(t, id)
    {
      MarkedRowOk(s, k, stored, id);
    }
    MarkedDrainOk(s, k, stored);
    QuietStepInv(s, t, k);
  }

  lemma MarkGrows(s: State, k: nat, stored: bool)
    requires Inv(s) && Enabled(s, Mark(k, stored))
    ensures var t := AfterMark(s, k, stored);
            && Grows(s, t) && t.rows.Keys == s.rows.Keys && t.topic == s.topic && t.tried == s.tried
            && t.published == s.published && k in t.drains && t.drains == s.drains[k := t.drains[k]]
  {
    var t := AfterMark(s, k, stored);
    MarkedRowsKeep(s, k);
    forall id | id in s.rows
      ensures id in t.rows && t.rows[id].kind == s.rows[id].kind && t.rows[id].key == s.rows[id].key
      ensures t.rows[id].payload == s.rows[id].payload
    {
    }
  }

  lemma MarkedRowsKeep(s: State, k: nat)
    requires At(s, k) && s.drains[k].answer.Some?
    ensures MarkedRows(s, k).Keys == s.rows.Keys
    ensures forall id :: id in s.rows ==>
      && MarkedRows(s, k)[id].kind == s.rows[id].kind && MarkedRows(s, k)[id].key == s.rows[id].key
      && MarkedRows(s, k)[id].payload == s.rows[id].payload
  {
  }

  lemma MarkedRowOk(s: State, k: nat, stored: bool, id: nat)
    requires Inv(s) && Enabled(s, Mark(k, stored)) && id in s.rows
    ensures RowOk(AfterMark(s, k, stored), id)
  {
    var c := Current(s, k);
    assert DrainOk(s, k) && RowOk(s, id);
    DelayAtMostCeiling(c.attempts, FIVE_MINUTES, s.outOfRange);
    IntervalExact(Delay(c.attempts, FIVE_MINUTES, s.outOfRange));
  }

  lemma MarkedDrainOk(s: State, k: nat, stored: bool)
    requires Enabled(s, Mark(k, stored)) && DrainOk(s, k) && Grows(s, AfterMark(s, k, stored))
    ensures DrainOk(AfterMark(s, k, stored), k)
  {
    var t := AfterMark(s, k, stored);
    forall i | 0 <= i < |t.drains[k].batch|
      ensures ClaimOk(t, t.drains[k].batch[i])
    {
      assert ClaimOk(s, s.drains[k].batch[i]);
    }
  }

  /** Every step preserves the invariant, and takes nothing back. */
  lemma StepInv(s: State, step: Step)
    requires Inv(s) && Enabled(s, step)
    ensures Returnable(s, step) && Inv(Apply(s, step)) && Grows(s, Apply(s, step))
  {
    StepReturnable(s, step);
    if step.Publish? {
      PublishInv(s, step.kind, step.key, step.data, step.freshId);
    } else if step.ClaimBatch? {
      ClaimInv(s, step.drain, step.locked, step.returned);
    } else if step.Write? {
      WriteInv(s, step.drain, step.ack, step.freshId);
    } else if step.Mark? {
      MarkInv(s, step.drain, step.stored);
    } else {
      OtherInv(s, step);
    }
  }

  lemma OtherInv(s: State, step: Step)
    requires Inv(s) && Enabled(s, step) && Returnable(s, step) && (step.Tick? || step.LoseInsert? || step.Crash?)
    ensures Inv(Apply(s, step)) && Grows(s, Apply(s, step))
  {
    var t := Apply(s, step);
    forall id | id in t.rows
      ensures RowOk(t, id)
    {
      assert RowOk(s, id);
    }
    forall k | k in t.drains
      ensures DrainOk(t, k)
    {
      DrainStaysOk(s, t, k);
    }
    forall id | Accepted(t, id) && t.writes
      ensures OnTopic(t, id)
    {
      StaysOnTopic(s, t, id);
    }
  }

  // ---- Runs ----

  ghost predicate ValidRun(s: State, steps: seq<Step>)
    decreases |steps|
  {
    steps == [] || (Enabled(s, steps[0]) && Returnable(s, steps[0]) && ValidRun(Apply(s, steps[0]), steps[1..]))
  }

  ghost function Final(s: State, steps: seq<Step>): State
    requires ValidRun(s, steps)
    decreases |steps|
  {
    if steps == [] then s else Final(Apply(s, steps[0]), steps[1..])
  }

  lemma {:induction false} RunInv(s: State, steps: seq<Step>)
    requires Inv(s) && ValidRun(s, steps)
    ensures Inv(Final(s, steps))
    decreases |steps|
  {
    if steps == [] {
    } else {
      StepInv(s, steps[0]);
      RunInv(Apply(s, steps[0]), steps[1..]);
    }
  }

  predicate IsDispatched(s: State, id: nat) {
    id in s.rows && s.rows[id].dispatchedAt.Some?
  }

  lemma TriedStep(s: State, step: Step, x: Try)
    requires Enabled(s, step) && Returnable(s, step) && x in Apply(s, step).tried
    ensures x in s.tried || (step.Write? && step.ack == x.ack && Current(s, step.drain).id == x.row)
  {
  }

  // What is on record as tried is how some write of the run ended.
  lemma {:induction false} TriedWasWritten(s: State, steps: seq<Step>, x: Try)
    requires ValidRun(s, steps) && x in Final(s, steps).tried
    ensures x in s.tried || exists i :: 0 <= i < |steps| && steps[i].Write? && steps[i].ack == x.ack
    decreases |steps|
  {
    if steps == [] {
    } else {
      var t := Apply(s, steps[0]);
      TriedWasWritten(t, steps[1..], x);
      if x in t.tried {
        TriedStep(s, steps[0], x);
      } else {
        var i :| 0 <= i < |steps[1..]| && steps[1..][i].Write? && steps[1..][i].ack == x.ack;
        assert steps[i + 1].Write?;
      }
    }
  }

  /** With a writer, a row is marked dispatched only after a write of it was acknowledged, and its message
      is then on the topic; without one nothing ever is. */
  lemma DispatchedWasAccepted(s: State, steps: seq<Step>, id: nat)
    requires Init(s) && ValidRun(s, steps) && IsDispatched(Final(s, steps), id)
    ensures var t := Final(s, steps);
            && (t.writes ==> Try(id, Acked) in t.tried && OnTopic(t, id))
            && (t.writes ==> exists i :: 0 <= i < |steps| && steps[i].Write? && steps[i].ack == Acked)
            && (!t.writes ==> t.topic == [])
  {
    RunInv(s, steps);
    var t := Final(s, steps);
    assert RowOk(t, id);
    if t.writes {
      TriedWasWritten(s, steps, Try(id, Acked));
    }
    FirstIsIn(t.topic);
  }

  lemma FirstIsIn(topic: seq<Delivery>)
    ensures topic != [] ==> topic[0] in topic
  {
  }

  /** What a drain is told of a write: success exactly when it was acknowledged, or there is no writer; the
      topic then has one more copy of the row's message unless the write was refused. */
  lemma WriteAnswers(s: State, k: nat, ack: Ack, freshId: string)
    requires Inv(s) && Enabled(s, Write(k, ack, freshId))
    ensures var t, c := Apply(s, Write(k, ack, freshId)), Current(s, k);
            && k in t.drains && t.drains[k].answer.Some? && c.id in s.published
            && (t.drains[k].answer.value.None? <==> !s.writes || ack == Acked)
            && t.topic == s.topic + (if s.writes && ack != Refused then [Delivery(c.id, s.published[c.id])] else [])
  {
    var c := Current(s, k);
    assert DrainOk(s, k) && ClaimOk(s, c) && RowOk(s, c.id);
    assert Redispatch(c.kind, c.key, c.payload, freshId) == Ok(s.published[c.id]);
  }

  /** What a stored mark leaves: the row dispatched now after success, and due again after the delay
      otherwise, dispatched or not as it was; no other row changes. */
  lemma MarkLeaves(s: State, k: nat)
    requires Inv(s) && Enabled(s, Mark(k, true))
    ensures var t, c, answer := Apply(s, Mark(k, true)), Current(s, k), s.drains[k].answer.value;
            && c.id in s.rows && c.id in t.rows && t.rows == s.rows[c.id := t.rows[c.id]]
            && var e := s.rows[c.id];
            && (answer.None? ==>
                  t.rows[c.id] == Entry(e.kind, e.key, e.payload, e.availableAt, e.attempts, "", Some(s.now)))
            && (answer.Some? ==>
                  var retryAt := s.now + Interval(Delay(c.attempts, 300_000_000_000, s.outOfRange));
                  t.rows[c.id] == Entry(e.kind, e.key, e.payload, retryAt, e.attempts, answer.value, e.dispatchedAt))
  {
    assert DrainOk(s, k) && ClaimOk(s, Current(s, k));
  }

  // Some request of the run published an event with this message.
  ghost predicate WasPublished(steps: seq<Step>, m: Message) {
    exists i :: 0 <= i < |steps| && steps[i].Publish?
      && IsEvent(m, steps[i].kind, steps[i].key, steps[i].data, steps[i].freshId)
  }

  lemma PublishedStep(s: State, step: Step, id: nat)
    requires Enabled(s, step) && Returnable(s, step) && id in Apply(s, step).published
    ensures var m := Apply(s, step).published[id];
            || (id in s.published && m == s.published[id])
            || (step.Publish? && IsEvent(m, step.kind, step.key, step.data, step.freshId))
  {
  }

  lemma {:induction false} PublishedIsEvent(s: State, steps: seq<Step>, id: nat)
    requires ValidRun(s, steps) && id in Final(s, steps).published
    ensures var m := Final(s, steps).published[id];
            (id in s.published && m == s.published[id]) || WasPublished(steps, m)
    decreases |steps|
  {
    if steps == [] {
    } else {
      var t, m := Apply(s, steps[0]), Final(s, steps).published[id];
      PublishedIsEvent(t, steps[1..], id);
      if WasPublished(steps[1..], m) {
        var i :| 0 <= i < |steps[1..]| && steps[1..][i].Publish?
                 && IsEvent(m, steps[1..][i].kind, steps[1..][i].key, steps[1..][i].data, steps[1..][i].freshId);
        assert steps[i + 1] == steps[1..][i];
      } else {
        PublishedStep(s, steps[0], id);
      }
    }
  }

  /** Every message on the topic is that of an event some request published, as direct publishing writes it. */
  lemma TopicCarriesEvents(s: State, steps: seq<Step>, d: Delivery)
    requires Init(s) && ValidRun(s, steps) && d in Final(s, steps).topic
    ensures WasPublished(steps, d.message)
  {
    RunInv(s, steps);
    PublishedIsEvent(s, steps, d.row);
  }

  /** However often rows are redelivered, every copy of one row on the topic is the message that
      publishing its event directly would have written. */
  lemma RedeliveriesAgree(s: State, steps: seq<Step>, i: nat, j: nat)
    requires Init(s) && ValidRun(s, steps)
    requires i < |Final(s, steps).topic| && j < |Final(s, steps).topic|
    ensures var t := Final(s, steps);
            && t.topic[i].row in t.published && t.topic[i].message == t.published[t.topic[i].row]
            && (t.topic[i].row == t.topic[j].row ==> t.topic[i].message == t.topic[j].message)
  {
    RunInv(s, steps);
    var t := Final(s, steps);
    assert t.topic[i] in t.topic && t.topic[j] in t.topic;
  }

  // The steps that mark a row dispatched.
  predicate Dispatches(s: State, step: Step, id: nat) {
    step.Mark? && step.stored && At(s, step.drain) && Current(s, step.drain).id == id
    && s.drains[step.drain].answer == Some(None)
  }

  /** A step leaves a row dispatched exactly when it was dispatched before or the step stores the
      mark of an accepted write of it. In particular a late failure mark undoes nothing. */
  lemma DispatchedAfterIff(s: State, step: Step, id: nat)
    requires Inv(s) && Enabled(s, step) && Returnable(s, step)
    ensures IsDispatched(Apply(s, step), id) <==> IsDispatched(s, id) || Dispatches(s, step, id)
  {
    match step
    case Mark(k, stored) => assert DrainOk(s, k) && ClaimOk(s, Current(s, k));
    case Publish(kind, key, data, freshId) => assert s.nextId in s.rows ==> RowOk(s, s.nextId);
    case _ =>
  }

  /** A dispatched row stays dispatched over any run and is never claimed again. */
  lemma {:induction false} DispatchedForever(s: State, steps: seq<Step>, id: nat)
    requires Inv(s) && ValidRun(s, steps) && IsDispatched(s, id)
    ensures IsDispatched(Final(s, steps), id) && Final(s, steps).rows[id].attempts == s.rows[id].attempts
    ensures forall i :: 0 <= i < |steps| && steps[i].ClaimBatch? ==> id !in steps[i].returned
    decreases |steps|
  {
    if steps == [] {
    } else {
      StepInv(s, steps[0]);
      DispatchedAfterIff(s, steps[0], id);
      DispatchedNotClaimed(s, steps[0], id);
      DispatchedForever(Apply(s, steps[0]), steps[1..], id);
      forall i | 0 <= i < |steps| && steps[i].ClaimBatch?
        ensures id !in steps[i].returned
      {
        assert i > 0 ==> steps[i] == steps[1..][i - 1];
      }
    }
  }

  lemma DispatchedNotClaimed(s: State, step: Step, id: nat)
    requires Inv(s) && Enabled(s, step) && Returnable(s, step) && IsDispatched(s, id)
    ensures step.ClaimBatch? ==> id !in step.returned
    ensures id in Apply(s, step).rows && Apply(s, step).rows[id].attempts == s.rows[id].attempts
  {
    assert RowOk(s, id);
    if step.ClaimBatch? {
      BatchIsDue(s, step.drain, step.locked, step.returned);
    }
  }

  // Steps that neither claim the row nor store a mark of it.
  predicate Leaves(s: State, step: Step, id: nat) {
    && (step.ClaimBatch? ==> id !in step.returned)
    && (step.Mark? && step.stored && At(s, step.drain) ==> Current(s, step.drain).id != id)
  }

  ghost predicate LeftAlone(s: State, steps: seq<Step>, id: nat)
    requires ValidRun(s, steps)
    decreases |steps|
  {
    steps == [] || (Leaves(s, steps[0], id) && LeftAlone(Apply(s, steps[0]), steps[1..], id))
  }

  lemma LeftByStep(s: State, step: Step, id: nat)
    requires Inv(s) && Enabled(s, step) && Returnable(s, step) && Leaves(s, step, id) && id in s.rows
    ensures id in Apply(s, step).rows && Apply(s, step).rows[id] == s.rows[id]
  {
    assert RowOk(s, id);
  }

  lemma {:induction false} LeftAloneKeeps(s: State, steps: seq<Step>, id: nat)
    requires Inv(s) && ValidRun(s, steps) && LeftAlone(s, steps, id) && id in s.rows
    ensures id in Final(s, steps).rows && Final(s, steps).rows[id] == s.rows[id]
    decreases |steps|
  {
    if steps == [] {
    } else {
      StepInv(s, steps[0]);
      LeftByStep(s, steps[0], id);
      LeftAloneKeeps(Apply(s, steps[0]), steps[1..], id);
    }
  }

  /** The lease really releases: from any reachable state, whoever holds an undispatched row and
      whatever they do short of marking it, five minutes of clock later at most it is due again. */
  lemma HeldRowIsReleased(s: State, before: seq<Step>, after: seq<Step>, id: nat)
    requires Init(s) && ValidRun(s, before)
    requires ValidRun(Final(s, before), after) && LeftAlone(Final(s, before), after, id)
    requires id in Final(s, before).rows && !IsDispatched(Final(s, before), id)
    requires Final(Final(s, before), after).now >= Final(s, before).now + FIVE_MINUTES
    ensures var t := Final(Final(s, before), after);
            id in t.rows && IsDue(t.rows[id], t.now)
  {
    var u := Final(s, before);
    RunInv(s, before);
    assert RowOk(u, id);
    LeftAloneKeeps(u, after, id);
  }

  // No step of the run stores a mark of the row.
  ghost predicate Unmarked(s: State, steps: seq<Step>, id: nat)
    requires ValidRun(s, steps)
    decreases |steps|
  {
    steps == [] || (
      && (steps[0].Mark? && steps[0].stored ==> Current(s, steps[0].drain).id != id)
      && Unmarked(Apply(s, steps[0]), steps[1..], id))
  }

  lemma {:induction false} ClockOnlyAdvances(s: State, steps: seq<Step>)
    requires Inv(s) && ValidRun(s, steps)
    ensures s.now <= Final(s, steps).now
    decreases |steps|
  {
    if steps == [] {
    } else {
      StepInv(s, steps[0]);
      ClockOnlyAdvances(Apply(s, steps[0]), steps[1..]);
    }
  }

  lemma {:induction false} NotClaimedEarly(s: State, steps: seq<Step>, id: nat)
    requires Inv(s) && ValidRun(s, steps) && Unmarked(s, steps, id)
    requires id in s.rows && Final(s, steps).now < s.rows[id].availableAt
    ensures forall i :: 0 <= i < |steps| && steps[i].ClaimBatch? ==> id !in steps[i].returned
    decreases |steps|
  {
    if steps == [] {
    } else {
      StepInv(s, steps[0]);
      ClockOnlyAdvances(Apply(s, steps[0]), steps[1..]);
      NotDueKeeps(s, steps[0], id);
      NotClaimedEarly(Apply(s, steps[0]), steps[1..], id);
      forall i | 0 <= i < |steps| && steps[i].ClaimBatch?
        ensures id !in steps[i].returned
      {
        assert i > 0 ==> steps[i] == steps[1..][i - 1];
      }
    }
  }

  lemma NotDueKeeps(s: State, step: Step, id: nat)
    requires Inv(s) && Enabled(s, step) && Returnable(s, step) && id in s.rows && s.now < s.rows[id].availableAt
    requires step.Mark? && step.stored ==> Current(s, step.drain).id != id
    ensures step.ClaimBatch? ==> id !in step.returned
    ensures id in Apply(s, step).rows && Apply(s, step).rows[id] == s.rows[id]
  {
    assert RowOk(s, id);
    if step.ClaimBatch? {
      BatchIsDue(s, step.drain, step.locked, step.returned);
    }
  }

  /** Until it is marked, and for a second at least, no other drain gets a claimed row. */
  lemma LeaseProtects(s: State, k: nat, locked: set<nat>, returned: seq<nat>, after: seq<Step>, id: nat)
    requires Inv(s) && Enabled(s, ClaimBatch(k, locked, returned)) && Returnable(s, ClaimBatch(k, locked, returned))
    requires var t := Apply(s, ClaimBatch(k, locked, returned));
             ValidRun(t, after) && Unmarked(t, after, id) && Final(t, after).now < s.now + SECOND
    requires id in returned
    ensures forall i :: 0 <= i < |after| && after[i].ClaimBatch? ==> id !in after[i].returned
  {
    StepInv(s, ClaimBatch(k, locked, returned));
    assert Interval(SECOND) == SECOND;
    assert id in Elements(returned);
    NotClaimedEarly(Apply(s, ClaimBatch(k, locked, returned)), after, id);
  }

  function TimesClaimed(steps: seq<Step>, id: nat): nat {
    if steps == [] then 0
    else (if steps[0].ClaimBatch? && id in steps[0].returned then 1 else 0) + TimesClaimed(steps[1..], id)
  }

  /** A row's attempts count the claims that returned it, over any run. */
  lemma {:induction false} AttemptsCountClaims(s: State, steps: seq<Step>, id: nat)
    requires Inv(s) && ValidRun(s, steps) && id in s.rows
    ensures id in Final(s, steps).rows
    ensures Final(s, steps).rows[id].attempts == s.rows[id].attempts + TimesClaimed(steps, id)
    decreases |steps|
  {
    if steps == [] {
    } else {
      StepInv(s, steps[0]);
      AttemptsStep(s, steps[0], id);
      AttemptsCountClaims(Apply(s, steps[0]), steps[1..], id);
    }
  }

  lemma AttemptsStep(s: State, step: Step, id: nat)
    requires Inv(s) && Enabled(s, step) && Returnable(s, step) && id in s.rows
    ensures id in Apply(s, step).rows
    ensures Apply(s, step).rows[id].attempts ==
            s.rows[id].attempts + if step.ClaimBatch? && id in step.returned then 1 else 0
  {
    assert RowOk(s, id);
    if step.ClaimBatch? {
      assert id in step.returned <==> id in Elements(step.returned);
    }
  }

  /** A claim takes a due row exactly when no other claim has it locked and fewer than a batch of
      due, unlocked rows come before it. */
  lemma ClaimTakesIff(s: State, k: nat, locked: set<nat>, returned: seq<nat>, id: nat)
    requires Enabled(s, ClaimBatch(k, locked, returned))
    ensures id in returned
       <==> id in s.rows && IsDue(s.rows[id], s.now) && id !in locked
            && |set e | e in DueIds(Unlocked(s.rows, locked), s.now) && e < id| < BATCH
  {
    var due, chosen := DueIds(Unlocked(s.rows, locked), s.now), Elements(returned);
    var lower := set e | e in due && e < id;
    assert id in returned <==> id in chosen;
    if id in chosen {
      assert id in due;
      SubsetSize(lower + {id}, chosen);
    } else if id in due {
      SubsetSize(chosen, lower);
    }
  }
}
