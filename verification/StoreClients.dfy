/** The operations of the comparison carried out by the two store classes themselves. */
module StoreClients {
  import opened Documents
  import opened DocumentTable
  import opened MemoryBuffer
  import opened MemoryStore
  import opened PostgresStore
  import opened StoreRelation
  import opened StoreSimulation

  function AllVisible(out: seq<Document>): seq<Document> {
    seq(|out|, i requires 0 <= i < |out| => Visible(out[i]))
  }

  lemma {:induction false} SeenAll(docs: Documents, ids: seq<Id>, out: seq<Document>)
    requires |out| == |ids| && forall i :: 0 <= i < |ids| ==> ids[i] in docs && out[i] == docs[ids[i]]
    ensures Seen(docs, ids) == AllVisible(out)
  {
    if ids == [] {
    } else {
      SeenAll(docs, ids[..|ids| - 1], out[..|ids| - 1]);
    }
  }

  // The batch memory claims is the one the operation names.
  lemma SameBatch(b: Buffer, op: Op, out: seq<Document>)
    requires op.Take? && Valid(b) && AnsweredInMemory(b, op)
    requires IsOldestPending(b, op.depot, EffectiveLimit(op.limit, 25), IdsOf(out))
    requires forall i :: 0 <= i < |out| ==>
      out[i].id in b.docs && out[i] == ClaimedDoc(b.docs[out[i].id], op.now + op.lease)
    ensures InMemory(b, op) == (WithClaimed(b, Elements(IdsOf(out)), op.now + op.lease), Batch(AllVisible(out)))
  {
    OldestPendingUnique(b, op.depot, EffectiveLimit(op.limit, 25), op.ids, IdsOf(out));
    SeenBatch(b.docs, op.ids, out, op.now + op.lease);
  }

  lemma SeenBatch(docs: Documents, ids: seq<Id>, out: seq<Document>, stamp: int)
    requires ids == IdsOf(out)
    requires forall i :: 0 <= i < |out| ==> out[i].id in docs && out[i] == ClaimedDoc(docs[out[i].id], stamp)
    ensures Seen(ClaimedDocs(docs, Elements(ids), stamp), ids) == AllVisible(out)
  {
    var after := ClaimedDocs(docs, Elements(ids), stamp);
    forall i | 0 <= i < |ids|
      ensures ids[i] in after && out[i] == after[ids[i]]
    {
      assert ids[i] in Elements(ids);
    }
    SeenAll(after, ids, out);
  }

  method CaptureInMemory(m: Memory, id: Id, c: Capture, now: int) returns (r: Reply)
    requires m.Valid()
    modifies m
    ensures m.Contents() == InMemory(old(m.Contents()), Create(id, c, now)).0
    ensures r == InMemory(old(m.Contents()), Create(id, c, now)).1
  {
    ghost var b := m.Contents();
    var out, created := m.CreateDocument(Request(id, c), now);
    if !created {
      OneHolder(b.docs, out.id, HolderOf(b.docs, c));
    }
    r := Captured(Visible(out), created);
  }

  method TakeFromMemory(m: Memory, op: Op) returns (r: Reply)
    requires op.Take? && m.Valid() && AnsweredInMemory(m.Contents(), op)
    modifies m
    ensures m.Contents() == InMemory(old(m.Contents()), op).0
    ensures r == InMemory(old(m.Contents()), op).1
  {
    ghost var b := m.Contents();
    var out := m.ClaimPending(op.depot, op.limit, op.lease, op.now);
    assert m.Contents() == WithClaimed(b, Elements(IdsOf(out)), op.now + op.lease);
    SameBatch(b, op, out);
    r := Batch(AllVisible(out));
  }

  method ListMemory(m: Memory, filter: string, limit: int, ghost ids: seq<Id>) returns (r: Reply)
    requires m.Valid() && AnsweredInMemory(m.Contents(), List(filter, limit, ids))
    ensures r == InMemory(m.Contents(), List(filter, limit, ids)).1
  {
    var out := m.ListDocuments(filter, limit);
    ListedAreStored(m.Contents(), filter, limit, ids);
    SeenAll(m.docs, ids, out);
    r := Batch(AllVisible(out));
  }

  // The operation on the in-memory store.
  method OnMemory(m: Memory, op: Op) returns (r: Reply)
    requires m.Valid() && AnsweredInMemory(m.Contents(), op)
    modifies m
    ensures m.Contents() == InMemory(old(m.Contents()), op).0
    ensures r == InMemory(old(m.Contents()), op).1
  {
    match op {
      case Create(id, c, now) =>
        r := CaptureInMemory(m, id, c, now);
      case Get(id) =>
        var found := m.GetDocument(id);
        r := if found.Ok? then Found(Visible(found.value)) else Missing;
      case Take(depot, limit, lease, now, ids) =>
        r := TakeFromMemory(m, op);
      case List(filter, limit, ids) =>
        r := ListMemory(m, filter, limit, ids);
      case Succeed(id, upstreamId, now) =>
        var found := m.MarkSynced(id, upstreamId, now);
        r := if found then Ack else Missing;
      case Fail(id, error, delay, now) =>
        var found := m.MarkFailed(id, error, delay, now);
        r := if found then Ack else Missing;
      case Retry(id, now) =>
        var found := m.ResetForRetry(id, now);
        r := if found then Ack else Missing;
      case Stats(depot) =>
        var stats := m.Stats(depot);
        r := Summary(stats);
      case GetState(depot) =>
        var st := m.GetSyncState(depot);
        r := LastSync(st);
      case SetState(depot, st) =>
        m.SetSyncState(depot, st);
        r := Ack;
    }
  }

  lemma ListedAreStored(b: Buffer, filter: string, limit: int, ids: seq<Id>)
    requires Valid(b) && AnsweredInMemory(b, List(filter, limit, ids))
    ensures forall id :: id in b.order ==> id in b.docs
    ensures var out := Listing(b, filter, limit);
            |out| == |ids| && forall i :: 0 <= i < |ids| ==> ids[i] in b.docs && out[i] == b.docs[ids[i]]
  {
    var m := Matching(b.docs, b.order, filter);
    ValidIndexed(b);
    MatchingEnumerates(b.docs, b.order, filter);
    ReversedAll(m);
    var out := Listing(b, filter, limit);
    forall i | 0 <= i < |ids|
      ensures ids[i] in b.docs && out[i] == b.docs[ids[i]]
    {
      assert out[i] == m[|m| - 1 - i];
    }
  }

  function DurableOf(p: Postgres): Durable
    reads p
  {
    Durable(p.table, p.syncState)
  }

  // The operation on the durable store; groups is the answer of the grouped query, where one is asked.
  method OnPostgres(p: Postgres, op: Op, groups: seq<(Status, nat)>) returns (r: Reply)
    requires Consistent(p.table) && AnsweredInPostgres(DurableOf(p), op)
    requires op.Stats? ==> IsGrouping(p.table, op.depot, groups)
    modifies p
    ensures DurableOf(p) == InPostgres(old(DurableOf(p)), op).0
    ensures r == InPostgres(old(DurableOf(p)), op).1
  {
    ghost var before := DurableOf(p);
    match op {
      case Create(id, c, now) =>
        var out := p.CreateDocument(id, c, now);
        match out {
          case Err(e) =>
            r := Refused;
          case Ok(answer) =>
            if !answer.1 {
              TakenInDocs(before.table, c);
              OneHolder(Docs(before.table), answer.0.id, HolderOf(Docs(before.table), c));
            }
            r := Captured(Visible(answer.0), answer.1);
        }
      case Get(id) =>
        var found := p.GetDocument(id);
        r := if found.Ok? then Found(Visible(found.value)) else Missing;
      case Take(depot, limit, lease, now, ids) =>
        var out := p.ClaimPending(depot, limit, lease, now, ids);
        TakenRows(before.table, ids, out, now, lease);
        r := Batch(AllVisible(out));
      case List(filter, limit, ids) =>
        var out := p.ListDocuments(filter, limit, ids);
        SeenAll(Docs(p.table), ids, out);
        r := Batch(AllVisible(out));
      case Succeed(id, upstreamId, now) =>
        var found := p.MarkSynced(id, upstreamId, now);
        r := if found then Ack else Missing;
      case Fail(id, error, delay, now) =>
        var found := p.MarkFailed(id, error, delay, now);
        r := if found then Ack else Missing;
      case Retry(id, now) =>
        var found := p.ResetForRetry(id, now);
        r := if found then Ack else Missing;
      case Stats(depot) =>
        var stats := p.Stats(depot, groups);
        r := Summary(stats);
      case GetState(depot) =>
        var st := p.GetSyncState(depot);
        r := LastSync(st);
      case SetState(depot, st) =>
        p.SetSyncState(depot, st);
        r := Ack;
    }
  }

  lemma TakenRows(t: Table, ids: seq<Id>, out: seq<Document>, now: int, lease: int)
    requires |out| == |ids| && forall i :: 0 <= i < |ids| ==> ids[i] in t && out[i] == ClaimedDoc(t[ids[i]].doc, now)
    ensures Seen(Docs(Claim(t, Elements(ids), now, lease)), ids) == AllVisible(out)
  {
    var docs := Docs(Claim(t, Elements(ids), now, lease));
    forall i | 0 <= i < |ids|
      ensures ids[i] in docs && out[i] == docs[ids[i]]
    {
      assert ids[i] in Elements(ids);
    }
    SeenAll(docs, ids, out);
  }

  lemma AgreeIsConsistent(b: Buffer, p: Durable)
    requires Valid(b) && Agree(b, p)
    ensures Consistent(p.table)
  {
    forall id | id in p.table
      ensures p.table[id].doc.id == id && p.table[id].doc.capture == b.docs[id].capture
    {
      assert RowsAgree(b.docs[id], p.table[id]);
      assert Visible(b.docs[id]).id == Visible(p.table[id].doc).id;
      assert Visible(b.docs[id]).capture == Visible(p.table[id].doc).capture;
    }
    SameCapturesStayUnique(b.docs, Docs(p.table));
  }

  /** One usable operation on agreeing stores: both answer alike, and agree afterwards. */
  method OnBoth(m: Memory, p: Postgres, op: Op, groups: seq<(Status, nat)>) returns (a: Reply, b: Reply)
    requires m.Valid() && Agree(m.Contents(), DurableOf(p))
    requires AnsweredInMemory(m.Contents(), op) && Usable(m.Contents(), op)
    requires op.Stats? ==> IsGrouping(p.table, op.depot, groups)
    modifies m, p
    ensures a == b && a == InMemory(old(m.Contents()), op).1
    ensures m.Valid() && Agree(m.Contents(), DurableOf(p))
    ensures m.Contents() == InMemory(old(m.Contents()), op).0
  {
    OpMatchesIff(m.Contents(), DurableOf(p), op);
    OpKeepsValid(m.Contents(), op);
    AgreeIsConsistent(m.Contents(), DurableOf(p));
    a := OnMemory(m, op);
    b := OnPostgres(p, op, groups);
  }
}
