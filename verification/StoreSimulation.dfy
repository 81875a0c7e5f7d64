/** Operation by operation and over whole runs: what a client of either store sees. */
module StoreSimulation {
  import opened Backoff
  import opened Documents
  import opened DocumentTable
  import opened MemoryBuffer
  import opened MemoryStore
  import opened StoreRelation

  // A claim and a listing carry the ids of their answer, in order.
  datatype Op =
    | Create(id: Id, capture: Capture, now: int)
    | Get(id: Id)
    | Take(depot: string, limit: int, lease: int, now: int, ids: seq<Id>)
    | List(filter: string, limit: int, ids: seq<Id>)
    | Succeed(id: Id, upstreamId: string, now: int)
    | Fail(id: Id, error: string, delay: int, now: int)
    | Retry(id: Id, now: int)
    | Stats(depot: string)
    | GetState(depot: string)
    | SetState(depot: string, st: SyncState)

  datatype Reply =
    | Captured(doc: Document, created: bool)
    | Found(doc: Document)
    | Batch(docs: seq<Document>)
    | Missing
    | Refused
    | Ack
    | Summary(stats: SyncStats)
    | LastSync(st: SyncState)

  // A request as the capture handler builds it: nothing set beyond identity and capture.
  function Request(id: Id, c: Capture): Document {
    Document(id, c, Buffered, 0, "", "", 0, None)
  }

  function OnExisting(docs: Documents, id: Id): Reply {
    if id in docs then Ack else Missing
  }

  // The documents behind the ids, as a client sees them.
  function Seen(docs: Documents, ids: seq<Id>): seq<Document> {
    if ids == [] then []
    else
      var last := ids[|ids| - 1];
      Seen(docs, ids[..|ids| - 1]) + if last in docs then [Visible(docs[last])] else []
  }

  // What memory lists.
  function Listing(b: Buffer, filter: string, limit: int): seq<Document>
    requires forall id :: id in b.order ==> id in b.docs
  {
    Shown(Reversed(Matching(b.docs, b.order, filter)), ListingLimit(limit))
  }

  // The answers memory gives, and those the database may give.
  ghost predicate AnsweredInMemory(b: Buffer, op: Op)
    requires Valid(b)
  {
    match op
    case Take(depot, limit, lease, now, ids) => IsOldestPending(b, depot, EffectiveLimit(limit, 25), ids)
    case List(filter, limit, ids) =>
      (forall id :: id in b.order ==> id in b.docs) && ids == IdsOf(Listing(b, filter, limit))
    case _ => true
  }

  ghost predicate AnsweredInPostgres(p: Durable, op: Op) {
    match op
    case Take(depot, limit, lease, now, ids) =>
      Distinct(ids) && IsSelection(p.table, {}, depot, EffectiveLimit(limit, 25), now, Elements(ids))
    case List(filter, limit, ids) => IsListing(Docs(p.table), filter, ListingLimit(limit), ids)
    case _ => true
  }

  ghost function InMemory(b: Buffer, op: Op): (Buffer, Reply) {
    match op
    case Create(id, c, now) =>
      if Holds(b, c) then (b, Captured(Visible(b.docs[HolderOf(b.docs, c)]), false))
      else (WithCreated(b, Request(id, c), now), Captured(Visible(Stored(Request(id, c), now)), true))
    case Get(id) => (b, if id in b.docs then Found(Visible(b.docs[id])) else Missing)
    case Take(depot, limit, lease, now, ids) =>
      var after := WithClaimed(b, Elements(ids), now + lease);
      (after, Batch(Seen(after.docs, ids)))
    case List(filter, limit, ids) => (b, Batch(Seen(b.docs, ids)))
    case Succeed(id, u, now) => (WithSynced(b, id, u, now), OnExisting(b.docs, id))
    case Fail(id, e, delay, now) => (WithFailed(b, id, e, delay, now), OnExisting(b.docs, id))
    case Retry(id, now) => (WithRequeued(b, id, now), OnExisting(b.docs, id))
    case Stats(depot) => (b, Summary(SyncStats(StatusCounts(b.docs, depot), StateIn(b.sync, depot))))
    case GetState(depot) => (b, LastSync(StateIn(b.sync, depot)))
    case SetState(depot, st) => (b.(sync := b.sync[depot := st]), Ack)
  }

  ghost function InPostgres(p: Durable, op: Op): (Durable, Reply) {
    var docs := Docs(p.table);
    match op
    case Create(id, c, now) =>
      var q := p.(table := Insert(p.table, id, c, now));
      (match InsertTagFor(p.table, id, c)
       case NoRow => TakenInDocs(p.table, c); (q, Captured(Visible(docs[HolderOf(docs, c)]), false))
       case DuplicateKey => (q, Refused)
       case OneRow => (q, Captured(Visible(q.table[id].doc), true)))
    case Get(id) => (p, if id in docs then Found(Visible(docs[id])) else Missing)
    case Take(depot, limit, lease, now, ids) =>
      var q := p.(table := Claim(p.table, Elements(ids), now, lease));
      (q, Batch(Seen(Docs(q.table), ids)))
    case List(filter, limit, ids) => (p, Batch(Seen(docs, ids)))
    case Succeed(id, u, now) => (p.(table := MarkedSynced(p.table, id, u, now)), OnExisting(docs, id))
    case Fail(id, e, delay, now) => (p.(table := MarkedFailed(p.table, id, e, delay, now)), OnExisting(docs, id))
    case Retry(id, now) => (p.(table := Requeued(p.table, id, now)), OnExisting(docs, id))
    case Stats(depot) => (p, Summary(SyncStats(StatusCounts(docs, depot), StateIn(p.sync, depot))))
    case GetState(depot) => (p, LastSync(StateIn(p.sync, depot)))
    case SetState(depot, st) => (p.(sync := p.sync[depot := st]), Ack)
  }

  // The database may give memory's answer, does, and the stores still agree.
  ghost predicate Matched(b: Buffer, p: Durable, op: Op) {
    AnsweredInPostgres(p, op) && SameEffect(b, p, op)
  }

  ghost predicate SameEffect(b: Buffer, p: Durable, op: Op) {
    InMemory(b, op).1 == InPostgres(p, op).1 && Agree(InMemory(b, op).0, InPostgres(p, op).0)
  }

  // New ids are fresh, stored durations are whole milliseconds, enough of a claimed backlog is due,
  // and nothing listed was created before a matching document inserted earlier.
  ghost predicate Usable(b: Buffer, op: Op) {
    match op
    case Create(id, c, now) => Holds(b, c) || id !in b.docs
    case Fail(id, e, delay, now) => id in b.docs ==> delay % MILLISECOND == 0
    case Take(depot, limit, lease, now, ids) =>
      EnoughDue(b, depot, EffectiveLimit(limit, 25), now) && (ids != [] ==> lease % MILLISECOND == 0)
    case List(filter, limit, ids) =>
      && (forall id :: id in b.order ==> id in b.docs)
      && NewestLast(Matching(b.docs, b.order, filter), ListingLimit(limit))
    case _ => true
  }

  // ---- Operation by operation ----

  lemma {:induction false} SameSeen(b: Buffer, p: Durable, ids: seq<Id>)
    requires Agree(b, p)
    ensures Seen(b.docs, ids) == Seen(Docs(p.table), ids)
  {
    if ids == [] {
    } else {
      SameSeen(b, p, ids[..|ids| - 1]);
      var last := ids[|ids| - 1];
      assert last in b.docs ==> RowsAgree(b.docs[last], p.table[last]);
    }
  }

  lemma CreateMatchesIff(b: Buffer, p: Durable, id: Id, c: Capture, now: int)
    requires Valid(b) && Agree(b, p)
    ensures Matched(b, p, Create(id, c, now)) <==> Holds(b, c) || id !in b.docs
  {
    SameTaken(b, p, c);
    if Holds(b, c) {
      SameHolder(b, p, c);
      assert RowsAgree(b.docs[HolderOf(b.docs, c)], p.table[HolderOf(b.docs, c)]);
    } else if id !in b.docs {
      OneRowAgrees(b, p, id, Stored(Request(id, c), now), NewRow(id, c, now));
    }
  }

  lemma TakeMatches(b: Buffer, p: Durable, op: Op)
    requires op.Take? && Valid(b) && Agree(b, p) && AnsweredInMemory(b, op)
    ensures Matched(b, p, op) <==> Usable(b, op)
  {
    TakeAnswerIff(b, p, op);
    TakenAreStored(b, op.depot, EffectiveLimit(op.limit, 25), op.ids);
    TakeEffectIff(b, p, op.depot, op.limit, op.lease, op.now, op.ids);
  }

  lemma TakeAnswerIff(b: Buffer, p: Durable, op: Op)
    requires op.Take? && Valid(b) && Agree(b, p) && AnsweredInMemory(b, op)
    ensures AnsweredInPostgres(p, op) <==> EnoughDue(b, op.depot, EffectiveLimit(op.limit, 25), op.now)
  {
    ClaimIsLegalIff(b, p, op.depot, EffectiveLimit(op.limit, 25), op.now, op.ids);
    TakenAreStored(b, op.depot, EffectiveLimit(op.limit, 25), op.ids);
  }

  lemma TakeEffectIff(b: Buffer, p: Durable, depot: string, limit: int, lease: int, now: int, ids: seq<Id>)
    requires Agree(b, p) && forall id :: id in ids ==> id in b.docs
    ensures SameEffect(b, p, Take(depot, limit, lease, now, ids)) <==> ids == [] || lease % MILLISECOND == 0
  {
    var c, q := WithClaimed(b, Elements(ids), now + lease), p.(table := Claim(p.table, Elements(ids), now, lease));
    LeaseAgreesIff(b, p, ids, lease, now);
    assert InMemory(b, Take(depot, limit, lease, now, ids)) == (c, Batch(Seen(c.docs, ids)));
    assert InPostgres(p, Take(depot, limit, lease, now, ids)) == (q, Batch(Seen(Docs(q.table), ids)));
  }

  lemma TakenAreStored(b: Buffer, depot: string, limit: nat, ids: seq<Id>)
    requires Valid(b) && IsOldestPending(b, depot, limit, ids)
    ensures Distinct(ids) && forall id :: id in ids ==> id in b.docs
  {
    OldestAreDistinct(b, depot, limit, ids);
    assert forall id :: id in ids ==> id in Elements(ids);
  }

  lemma LeaseAgreesIff(b: Buffer, p: Durable, ids: seq<Id>, lease: int, now: int)
    requires Agree(b, p) && forall id :: id in ids ==> id in b.docs
    ensures var c := WithClaimed(b, Elements(ids), now + lease);
            var q := p.(table := Claim(p.table, Elements(ids), now, lease));
            && (Agree(c, q) <==> ids == [] || lease % MILLISECOND == 0)
            && (Agree(c, q) ==> Seen(c.docs, ids) == Seen(Docs(q.table), ids))
  {
    var c, q := WithClaimed(b, Elements(ids), now + lease), p.(table := Claim(p.table, Elements(ids), now, lease));
    if ids == [] || lease % MILLISECOND == 0 {
      TakeAgrees(b, p, ids, lease, now);
      SameSeen(c, q, ids);
    } else {
      assert ids[0] in ids;
      TakeDisagrees(b, p, ids, lease, now);
    }
  }

  lemma TakeAgrees(b: Buffer, p: Durable, ids: seq<Id>, lease: int, now: int)
    requires Agree(b, p) && (ids == [] || lease % MILLISECOND == 0)
    ensures Agree(WithClaimed(b, Elements(ids), now + lease), p.(table := Claim(p.table, Elements(ids), now, lease)))
  {
    if ids == [] {
      assert Elements(ids) == {};
      assert WithClaimed(b, {}, now + lease) == b && Claim(p.table, {}, now, lease) == p.table;
    } else {
      ClaimAgrees(b, p, Elements(ids), lease, now);
    }
  }

  lemma TakeDisagrees(b: Buffer, p: Durable, ids: seq<Id>, lease: int, now: int)
    requires Agree(b, p) && ids != [] && ids[0] in b.docs && lease % MILLISECOND != 0
    ensures !Agree(WithClaimed(b, Elements(ids), now + lease), p.(table := Claim(p.table, Elements(ids), now, lease)))
  {
    var c, t := WithClaimed(b, Elements(ids), now + lease), Claim(p.table, Elements(ids), now, lease);
    IntervalExact(lease);
    assert ids[0] in Elements(ids);
    assert !RowsAgree(c.docs[ids[0]], t[ids[0]]);
  }

  lemma ListMatches(b: Buffer, p: Durable, filter: string, limit: int, ids: seq<Id>)
    requires Valid(b) && Agree(b, p) && AnsweredInMemory(b, List(filter, limit, ids))
    ensures Matched(b, p, List(filter, limit, ids)) <==> Usable(b, List(filter, limit, ids))
  {
    ListedMayBeIff(b, p, filter, ListingLimit(limit), ids);
    SameSeen(b, p, ids);
  }

  lemma ListedMayBeIff(b: Buffer, p: Durable, filter: string, limit: nat, ids: seq<Id>)
    requires Valid(b) && Agree(b, p)
    requires forall id :: id in b.order ==> id in b.docs
    requires ids == IdsOf(Shown(Reversed(Matching(b.docs, b.order, filter)), limit))
    ensures IsListing(Docs(p.table), filter, limit, ids) <==> NewestLast(Matching(b.docs, b.order, filter), limit)
  {
    ListingIsLegalIff(b, filter, limit);
    ListingAgrees(b, p, filter, limit, ids);
  }

  lemma MarkMatches(b: Buffer, p: Durable, op: Op)
    requires Valid(b) && Agree(b, p) && (op.Succeed? || op.Fail? || op.Retry?)
    ensures Matched(b, p, op) <==> Usable(b, op)
  {
    if op.Succeed? {
      SucceedAgrees(b, p, op.id, op.upstreamId, op.now);
    } else if op.Retry? {
      RetryAgrees(b, p, op.id, op.now);
    } else if op.id in b.docs {
      FailAgreesIff(b, p, op.id, op.error, op.delay, op.now);
    }
  }

  /** Whatever memory answers, the database may answer it too, with the same effect, exactly when the
      operation is usable. */
  lemma OpMatchesIff(b: Buffer, p: Durable, op: Op)
    requires Valid(b) && Agree(b, p) && AnsweredInMemory(b, op)
    ensures Matched(b, p, op) <==> Usable(b, op)
  {
    if op.Create? {
      CreateMatchesIff(b, p, op.id, op.capture, op.now);
    } else if op.Take? {
      TakeMatches(b, p, op);
    } else if op.List? {
      ListMatches(b, p, op.filter, op.limit, op.ids);
    } else if op.Get? {
      assert op.id in b.docs ==> RowsAgree(b.docs[op.id], p.table[op.id]);
    } else if op.Stats? {
      SameStats(b, p, op.depot);
    } else if op.Succeed? || op.Fail? || op.Retry? {
      MarkMatches(b, p, op);
    }
  }

  // A capture's id is new, unless the capture is a replay.
  predicate IsFresh(b: Buffer, op: Op) {
    op.Create? ==> Holds(b, op.capture) || op.id !in b.docs
  }

  lemma OpKeepsValid(b: Buffer, op: Op)
    requires Valid(b) && IsFresh(b, op)
    ensures Valid(InMemory(b, op).0)
  {
    if op.Create? {
      CreatedValidIff(b, Request(op.id, op.capture), op.now);
    } else {
      KeptValid(b, InMemory(b, op).0);
    }
  }

  // ---- Runs ----

  ghost predicate UsableRun(b: Buffer, ops: seq<Op>)
    decreases |ops|
  {
    ops == [] || (
      && Valid(b) && AnsweredInMemory(b, ops[0]) && Usable(b, ops[0])
      && UsableRun(InMemory(b, ops[0]).0, ops[1..]))
  }

  ghost predicate AnsweredRun(p: Durable, ops: seq<Op>)
    decreases |ops|
  {
    ops == [] || (AnsweredInPostgres(p, ops[0]) && AnsweredRun(InPostgres(p, ops[0]).0, ops[1..]))
  }

  ghost function AfterMemory(b: Buffer, ops: seq<Op>): Buffer
    decreases |ops|
  {
    if ops == [] then b else AfterMemory(InMemory(b, ops[0]).0, ops[1..])
  }

  ghost function AfterPostgres(p: Durable, ops: seq<Op>): Durable
    decreases |ops|
  {
    if ops == [] then p else AfterPostgres(InPostgres(p, ops[0]).0, ops[1..])
  }

  ghost function RepliesInMemory(b: Buffer, ops: seq<Op>): seq<Reply>
    decreases |ops|
  {
    if ops == [] then [] else [InMemory(b, ops[0]).1] + RepliesInMemory(InMemory(b, ops[0]).0, ops[1..])
  }

  ghost function RepliesInPostgres(p: Durable, ops: seq<Op>): seq<Reply>
    decreases |ops|
  {
    if ops == [] then [] else [InPostgres(p, ops[0]).1] + RepliesInPostgres(InPostgres(p, ops[0]).0, ops[1..])
  }

  /** Any such run of memory's, claims and listings included, is one of the database's, with the same
      replies, and leaves the stores in agreement. */
  lemma {:induction false} RunsAgree(b: Buffer, p: Durable, ops: seq<Op>)
    requires Valid(b) && Agree(b, p) && UsableRun(b, ops)
    ensures AnsweredRun(p, ops) && RepliesInMemory(b, ops) == RepliesInPostgres(p, ops)
    ensures Valid(AfterMemory(b, ops)) && Agree(AfterMemory(b, ops), AfterPostgres(p, ops))
    decreases |ops|
  {
    if ops == [] {
    } else {
      OpMatchesIff(b, p, ops[0]);
      OpKeepsValid(b, ops[0]);
      RunsAgree(InMemory(b, ops[0]).0, InPostgres(p, ops[0]).0, ops[1..]);
    }
  }

  // ---- What holds over every run on memory with fresh ids ----

  ghost predicate FreshRun(b: Buffer, ops: seq<Op>)
    decreases |ops|
  {
    ops == [] || (IsFresh(b, ops[0]) && FreshRun(InMemory(b, ops[0]).0, ops[1..]))
  }

  /** order stays a duplicate-free enumeration of docs, and reference triples stay unique. */
  lemma {:induction false} RunKeepsValid(b: Buffer, ops: seq<Op>)
    requires Valid(b) && FreshRun(b, ops)
    ensures Valid(AfterMemory(b, ops))
    decreases |ops|
  {
    if ops == [] {
    } else {
      OpKeepsValid(b, ops[0]);
      RunKeepsValid(InMemory(b, ops[0]).0, ops[1..]);
    }
  }

  /** A captured document is found ever after, with its id and capture. */
  lemma {:induction false} CapturedIsFound(b: Buffer, ops: seq<Op>, id: Id)
    requires FreshRun(b, ops) && id in b.docs && b.docs[id].id == id
    ensures var found := InMemory(AfterMemory(b, ops), Get(id)).1;
            found.Found? && found.doc.id == id && found.doc.capture == b.docs[id].capture
    decreases |ops|
  {
    if ops == [] {
    } else {
      CapturedIsFound(InMemory(b, ops[0]).0, ops[1..], id);
    }
  }

  // The state a run last recorded for a depot, if any.
  function LastRecorded(ops: seq<Op>, depot: string): Option<SyncState> {
    if ops == [] then None
    else
      var later := LastRecorded(ops[1..], depot);
      if later.Some? then later
      else if ops[0].SetState? && ops[0].depot == depot then Some(ops[0].st)
      else None
  }

  function RecordedAfter(before: map<string, SyncState>, ops: seq<Op>, depot: string): SyncState {
    var last := LastRecorded(ops, depot);
    if last.Some? then last.value else StateIn(before, depot)
  }

  /** In memory a depot's state reads back as last recorded, whatever else happened in between. */
  lemma {:induction false} StateReadsBack(b: Buffer, ops: seq<Op>, depot: string)
    ensures InMemory(AfterMemory(b, ops), GetState(depot)).1 == LastSync(RecordedAfter(b.sync, ops, depot))
    decreases |ops|
  {
    if ops == [] {
    } else {
      StateReadsBack(InMemory(b, ops[0]).0, ops[1..], depot);
    }
  }

  /** In the database too. */
  lemma {:induction false} StoredStateReadsBack(p: Durable, ops: seq<Op>, depot: string)
    ensures InPostgres(AfterPostgres(p, ops), GetState(depot)).1 == LastSync(RecordedAfter(p.sync, ops, depot))
    decreases |ops|
  {
    if ops == [] {
    } else {
      StoredStateReadsBack(InPostgres(p, ops[0]).0, ops[1..], depot);
    }
  }

  // ---- Runs under a clock that never goes back ----

  // Captures read the clock in order, from t on; listings need no condition of their own.
  ghost predicate SteadyRun(b: Buffer, t: int, ops: seq<Op>)
    decreases |ops|
  {
    ops == [] || (
      && Valid(b) && AnsweredInMemory(b, ops[0]) && (ops[0].List? || Usable(b, ops[0]))
      && (ops[0].Create? ==> t <= ops[0].now)
      && SteadyRun(InMemory(b, ops[0]).0, Later(t, ops[0]), ops[1..]))
  }

  function Later(t: int, op: Op): int {
    if op.Create? then op.now else t
  }

  lemma OpKeepsChronological(b: Buffer, t: int, op: Op)
    requires Valid(b) && IsFresh(b, op) && Chronological(b, t) && (op.Create? ==> t <= op.now)
    ensures Chronological(InMemory(b, op).0, Later(t, op))
  {
    if op.Create? {
      CreatedChronological(b, t, Request(op.id, op.capture), op.now);
    } else {
      SameCapturesChronological(b, InMemory(b, op).0, t);
    }
  }

  lemma CreatedChronological(b: Buffer, t: int, doc: Document, now: int)
    requires Valid(b) && (Holds(b, doc.capture) || doc.id !in b.docs) && Chronological(b, t) && t <= now
    ensures Chronological(WithCreated(b, doc, now), now)
  {
    ValidIndexed(b);
    var after := WithCreated(b, doc, now);
    if !Holds(b, doc.capture) {
      assert doc.id !in b.order by {
        assert doc.id in b.order ==> doc.id in Elements(b.order);
      }
      assert forall i :: 0 <= i < |b.order| ==>
        after.order[i] == b.order[i] && after.docs[b.order[i]] == b.docs[b.order[i]];
      assert after.order[|b.order|] == doc.id && after.docs[doc.id].capture.createdAt == now;
    }
  }

  lemma SameCapturesChronological(b: Buffer, after: Buffer, t: int)
    requires Chronological(b, t) && after.order == b.order && after.docs.Keys == b.docs.Keys
    requires forall id :: id in b.docs ==> after.docs[id].capture == b.docs[id].capture
    ensures Chronological(after, t)
  {
  }

  lemma ChronologicalIsUsable(b: Buffer, t: int, op: Op)
    requires Valid(b) && Chronological(b, t) && op.List?
    ensures Usable(b, op)
  {
    ValidIndexed(b);
    ChronologicalListing(b.docs, b.order, op.filter, ListingLimit(op.limit));
  }

  /** If the clock never goes back, every listing of such a run is one the database may give too, so the
      whole run is. */
  lemma {:induction false} SteadyRunsAgree(b: Buffer, p: Durable, t: int, ops: seq<Op>)
    requires Valid(b) && Agree(b, p) && Chronological(b, t) && SteadyRun(b, t, ops)
    ensures AnsweredRun(p, ops) && RepliesInMemory(b, ops) == RepliesInPostgres(p, ops)
    ensures Valid(AfterMemory(b, ops)) && Agree(AfterMemory(b, ops), AfterPostgres(p, ops))
    decreases |ops|
  {
    if ops == [] {
    } else {
      if ops[0].List? {
        ChronologicalIsUsable(b, t, ops[0]);
      }
      OpMatchesIff(b, p, ops[0]);
      OpKeepsValid(b, ops[0]);
      OpKeepsChronological(b, t, ops[0]);
      SteadyRunsAgree(InMemory(b, ops[0]).0, InPostgres(p, ops[0]).0, Later(t, ops[0]), ops[1..]);
    }
  }
}
