/** The two stores compared: the in-memory UpdatedAt plays the part of the table's available_at. */
module StoreRelation {
  import opened Backoff
  import opened Documents
  import opened DocumentTable
  import opened MemoryBuffer
  import opened MemoryStore

  datatype Durable = Durable(table: Table, sync: map<string, SyncState>)

  // Everything a client sees of a document, apart from its last update.
  function Visible(d: Document): Document {
    d.(updatedAt := 0)
  }

  // Two documents look alike exactly when they differ in nothing else.
  lemma VisibleShows(a: Document, b: Document)
    ensures Visible(a) == Visible(b) <==>
            && a.id == b.id && a.capture == b.capture && a.status == b.status && a.syncAttempts == b.syncAttempts
            && a.lastError == b.lastError && a.upstreamId == b.upstreamId && a.syncedAt == b.syncedAt
  {
  }

  ghost predicate RowsAgree(d: Document, r: Row) {
    Visible(d) == Visible(r.doc) && (d.status != Synced ==> d.updatedAt == r.availableAt)
  }

  ghost predicate Agree(b: Buffer, p: Durable) {
    && b.docs.Keys == p.table.Keys && b.sync == p.sync
    && forall id :: id in b.docs ==> RowsAgree(b.docs[id], p.table[id])
  }

  lemma SameTaken(b: Buffer, p: Durable, c: Capture)
    requires Agree(b, p)
    ensures Holds(b, c) <==> Taken(p.table, c)
  {
    forall id | id in b.docs
      ensures b.docs[id].capture == p.table[id].doc.capture
    {
      assert RowsAgree(b.docs[id], p.table[id]);
      assert Visible(b.docs[id]).capture == Visible(p.table[id].doc).capture;
    }
  }

  lemma SameHolder(b: Buffer, p: Durable, c: Capture)
    requires Valid(b) && Agree(b, p) && Holds(b, c)
    ensures Taken(p.table, c)
    ensures exists id :: id in Docs(p.table) && SameTriple(Docs(p.table)[id].capture, c)
    ensures HolderOf(b.docs, c) == HolderOf(Docs(p.table), c)
  {
    SameTaken(b, p, c);
    TakenInDocs(p.table, c);
    var x, y := HolderOf(b.docs, c), HolderOf(Docs(p.table), c);
    assert RowsAgree(b.docs[y], p.table[y]);
    assert Visible(b.docs[y]).capture == Visible(p.table[y].doc).capture;
    OneHolder(b.docs, x, y);
  }

  lemma SameStats(b: Buffer, p: Durable, depot: string)
    requires Agree(b, p)
    ensures StatusCounts(b.docs, depot) == StatusCounts(Docs(p.table), depot)
  {
    forall s
      ensures WithStatus(b.docs, depot, s) == WithStatus(Docs(p.table), depot, s)
    {
      forall id | id in b.docs
        ensures id in WithStatus(b.docs, depot, s) <==> id in WithStatus(Docs(p.table), depot, s)
      {
        assert RowsAgree(b.docs[id], p.table[id]);
        assert Visible(b.docs[id]).capture == Visible(p.table[id].doc).capture;
        assert Visible(b.docs[id]).status == Visible(p.table[id].doc).status;
      }
    }
  }

  // Agreement after changing one document on both sides.
  lemma OneRowAgrees(b: Buffer, p: Durable, id: Id, d: Document, r: Row)
    requires Agree(b, p) && RowsAgree(d, r)
    ensures Agree(b.(docs := b.docs[id := d]), p.(table := p.table[id := r]))
  {
  }

  lemma SucceedAgrees(b: Buffer, p: Durable, id: Id, u: string, now: int)
    requires Valid(b) && Agree(b, p)
    ensures Agree(WithSynced(b, id, u, now), p.(table := MarkedSynced(p.table, id, u, now)))
    ensures Valid(WithSynced(b, id, u, now))
  {
    KeptValid(b, WithSynced(b, id, u, now));
    if id in b.docs {
      var d, r := b.docs[id], p.table[id];
      assert RowsAgree(d, r);
      assert Visible(SyncedDoc(d, u, now)) == SyncedDoc(Visible(d), u, now).(updatedAt := 0);
      OneRowAgrees(b, p, id, SyncedDoc(d, u, now), r.(doc := SyncedDoc(r.doc, u, now)));
    }
  }

  lemma FailAgrees(b: Buffer, p: Durable, id: Id, e: string, delay: int, now: int)
    requires Valid(b) && Agree(b, p) && (id in b.docs ==> delay % MILLISECOND == 0)
    ensures Agree(WithFailed(b, id, e, delay, now), p.(table := MarkedFailed(p.table, id, e, delay, now)))
    ensures Valid(WithFailed(b, id, e, delay, now))
  {
    KeptValid(b, WithFailed(b, id, e, delay, now));
    if id in b.docs {
      var d, r := b.docs[id], p.table[id];
      IntervalExact(delay);
      assert RowsAgree(d, r);
      assert Visible(FailedDoc(d, e, now + delay)) == FailedDoc(Visible(d), e, 0);
      OneRowAgrees(b, p, id, FailedDoc(d, e, now + delay), Row(FailedDoc(r.doc, e, now), now + Interval(delay)));
    }
  }

  lemma RetryAgrees(b: Buffer, p: Durable, id: Id, now: int)
    requires Valid(b) && Agree(b, p)
    ensures Agree(WithRequeued(b, id, now), p.(table := Requeued(p.table, id, now)))
    ensures Valid(WithRequeued(b, id, now))
  {
    KeptValid(b, WithRequeued(b, id, now));
    if id in b.docs {
      var d, r := b.docs[id], p.table[id];
      assert RowsAgree(d, r);
      assert Visible(ResetDoc(d, now)) == ResetDoc(Visible(d), 0);
      OneRowAgrees(b, p, id, ResetDoc(d, now), Row(ResetDoc(r.doc, now), now));
    }
  }

  /** The stores stay together after a failure exactly when its delay is a whole number of milliseconds. */
  lemma FailAgreesIff(b: Buffer, p: Durable, id: Id, e: string, delay: int, now: int)
    requires Valid(b) && Agree(b, p) && id in b.docs
    ensures Agree(WithFailed(b, id, e, delay, now), p.(table := MarkedFailed(p.table, id, e, delay, now)))
       <==> delay % MILLISECOND == 0
  {
    IntervalExact(delay);
    var q := p.(table := MarkedFailed(p.table, id, e, delay, now));
    if delay % MILLISECOND == 0 {
      FailAgrees(b, p, id, e, delay, now);
    } else {
      assert !RowsAgree(WithFailed(b, id, e, delay, now).docs[id], q.table[id]);
    }
  }

  /** For the engine's own delays, under any whole-millisecond ceiling, that is a matter of the attempts. */
  lemma RetryDelayAgreesIff(b: Buffer, p: Durable, id: Id, e: string, maxDelay: int, outOfRange: int, now: int)
    requires Valid(b) && Agree(b, p) && id in b.docs && b.docs[id].syncAttempts <= 62
    requires maxDelay > 0 && maxDelay % MILLISECOND == 0
    ensures var delay := Delay(b.docs[id].syncAttempts, maxDelay, outOfRange);
            Agree(WithFailed(b, id, e, delay, now), p.(table := MarkedFailed(p.table, id, e, delay, now))) <==>
            IsWhole(b.docs[id].syncAttempts, maxDelay)
  {
    var a := b.docs[id].syncAttempts;
    var delay := Delay(a, maxDelay, outOfRange);
    FailAgreesIff(b, p, id, e, delay, now);
    IntervalExact(delay);
    WholeMillisecondsIff(a, maxDelay, outOfRange);
  }

  // ---- Claims ----

  lemma SamePending(b: Buffer, p: Durable, depot: string, id: Id)
    requires Agree(b, p)
    ensures id in PendingIds(b.docs, depot) <==>
            id in p.table && Pending(p.table[id].doc) && InDepot(depot, p.table[id].doc.capture)
    ensures id in PendingIds(b.docs, depot) ==> b.docs[id].updatedAt == p.table[id].availableAt
  {
    if id in b.docs {
      assert RowsAgree(b.docs[id], p.table[id]);
      assert Visible(b.docs[id]).capture == Visible(p.table[id].doc).capture;
      assert Visible(b.docs[id]).status == Visible(p.table[id].doc).status;
    }
  }

  // A claim of memory's is one the table may make exactly when everything in it is due.
  lemma DueBatchIsLegalIff(b: Buffer, p: Durable, depot: string, limit: nat, now: int, ids: seq<Id>)
    requires Valid(b) && Agree(b, p) && IsOldestPending(b, depot, limit, ids)
    ensures IsSelection(p.table, {}, depot, limit, now, Elements(ids))
       <==> forall id :: id in ids ==> id in p.table && p.table[id].availableAt <= now
  {
    forall id
      ensures id in PendingIds(b.docs, depot) <==>
              id in p.table && Pending(p.table[id].doc) && InDepot(depot, p.table[id].doc.capture)
      ensures id in PendingIds(b.docs, depot) ==> b.docs[id].updatedAt == p.table[id].availableAt
    {
      SamePending(b, p, depot, id);
    }
    OldestAreDistinct(b, depot, limit, ids);
    if forall id :: id in ids ==> id in p.table && p.table[id].availableAt <= now {
      DueClaimIsLegal(b, p, depot, limit, now, ids);
    }
    forall id | id in ids && IsSelection(p.table, {}, depot, limit, now, Elements(ids))
      ensures id in p.table && p.table[id].availableAt <= now
    {
      assert id in Elements(ids);
      assert id in EligibleIds(p.table, {}, depot, now);
    }
  }

  lemma ClaimedNotLater(b: Buffer, depot: string, limit: nat, ids: seq<Id>, c: Id, e: Id)
    requires Valid(b) && IsOldestPending(b, depot, limit, ids)
    requires c in ids && e in PendingIds(b.docs, depot) && e !in ids
    ensures c in b.docs && b.docs[c].updatedAt <= b.docs[e].updatedAt
  {
    var i :| 0 <= i < |ids| && ids[i] == c;
    assert ids[i] in b.order && Before(b.docs, b.order, ids[i], e);
  }

  lemma DueClaimIsLegal(b: Buffer, p: Durable, depot: string, limit: nat, now: int, ids: seq<Id>)
    requires Valid(b) && IsOldestPending(b, depot, limit, ids) && |Elements(ids)| == |ids|
    requires forall id :: id in PendingIds(b.docs, depot) <==>
      id in p.table && Pending(p.table[id].doc) && InDepot(depot, p.table[id].doc.capture)
    requires forall id :: id in PendingIds(b.docs, depot) ==> b.docs[id].updatedAt == p.table[id].availableAt
    requires forall id :: id in ids ==> id in p.table && p.table[id].availableAt <= now
    ensures IsSelection(p.table, {}, depot, limit, now, Elements(ids))
  {
    var chosen, all := Elements(ids), EligibleIds(p.table, {}, depot, now);
    forall e | e in all && e !in chosen
      ensures |chosen| == limit
      ensures forall c :: c in chosen ==> p.table[c].availableAt <= p.table[e].availableAt
    {
      assert e in PendingIds(b.docs, depot) && e !in ids;
      forall c | c in chosen
        ensures p.table[c].availableAt <= p.table[e].availableAt
      {
        ClaimedNotLater(b, depot, limit, ids, c, e);
      }
    }
    assert chosen <= all;
    assert (all - chosen) + chosen == all;
    if chosen != all {
      var e :| e in all - chosen;
    }
  }

  // The pending documents of a depot whose time has come.
  function DueIds(b: Buffer, depot: string, now: int): set<Id> {
    set id | id in PendingIds(b.docs, depot) && b.docs[id].updatedAt <= now
  }

  // A full batch is due, or the whole backlog is.
  predicate EnoughDue(b: Buffer, depot: string, limit: nat, now: int) {
    |DueIds(b, depot, now)| >= limit || DueIds(b, depot, now) == PendingIds(b.docs, depot)
  }

  /** What memory claims is a batch the table's claim may select exactly when, before the claim, a full
      batch of the depot's backlog is due or all of it is; memory itself never asks. */
  lemma ClaimIsLegalIff(b: Buffer, p: Durable, depot: string, limit: nat, now: int, ids: seq<Id>)
    requires Valid(b) && Agree(b, p) && IsOldestPending(b, depot, limit, ids)
    ensures IsSelection(p.table, {}, depot, limit, now, Elements(ids)) <==> EnoughDue(b, depot, limit, now)
  {
    DueBatchIsLegalIff(b, p, depot, limit, now, ids);
    OldestAreDistinct(b, depot, limit, ids);
    forall id | id in ids
      ensures id in p.table && p.table[id].availableAt == b.docs[id].updatedAt && id in PendingIds(b.docs, depot)
    {
      assert id in Elements(ids);
      SamePending(b, p, depot, id);
    }
    if forall id :: id in ids ==> b.docs[id].updatedAt <= now {
      DueBatchIsEnough(b, depot, limit, now, ids);
    } else {
      var late :| late in ids && b.docs[late].updatedAt > now;
      LateBatchIsNotEnough(b, depot, limit, now, ids, late);
    }
  }

  lemma DueBatchIsEnough(b: Buffer, depot: string, limit: nat, now: int, ids: seq<Id>)
    requires Valid(b) && IsOldestPending(b, depot, limit, ids) && |Elements(ids)| == |ids|
    requires forall id :: id in ids ==> id in b.docs && b.docs[id].updatedAt <= now
    ensures EnoughDue(b, depot, limit, now)
  {
    var due := DueIds(b, depot, now);
    assert forall id :: id in ids ==> id in Elements(ids);
    if |ids| == limit {
      SubsetSize(Elements(ids), due);
    } else {
      assert due == PendingIds(b.docs, depot);
    }
  }

  lemma LateBatchIsNotEnough(b: Buffer, depot: string, limit: nat, now: int, ids: seq<Id>, late: Id)
    requires Valid(b) && IsOldestPending(b, depot, limit, ids) && |Elements(ids)| == |ids|
    requires late in ids && late in PendingIds(b.docs, depot) && b.docs[late].updatedAt > now
    ensures !EnoughDue(b, depot, limit, now)
  {
    var due := DueIds(b, depot, now);
    forall e | e in due
      ensures e in Elements(ids) - {late}
    {
      if e !in ids {
        ClaimedNotLater(b, depot, limit, ids, late, e);
      }
    }
    SubsetSize(due, Elements(ids) - {late});
    SplitSize(Elements(ids), Elements(ids) - {late}, {late});
  }

  /** A failed document waiting for its retry, alone in the buffer, is claimed by memory all the same;
      the table's claim may not select it. */
  lemma MemoryClaimsEarly(d: Document, sync: map<string, SyncState>, limit: nat, now: int)
    requires d.status == Failed && d.updatedAt > now && limit > 0
    ensures var b := Buffer(map[d.id := d], [d.id], sync);
            var p := Durable(map[d.id := Row(d, d.updatedAt)], sync);
            && Valid(b) && Agree(b, p) && IsOldestPending(b, d.capture.depotId, limit, [d.id])
            && !IsSelection(p.table, {}, d.capture.depotId, limit, now, {d.id})
  {
    var b := Buffer(map[d.id := d], [d.id], sync);
    assert Elements([d.id]) == {d.id};
    assert PendingIds(b.docs, d.capture.depotId) == {d.id};
    assert b.order[0] in b.order;
    assert d.id !in EligibleIds(map[d.id := Row(d, d.updatedAt)], {}, d.capture.depotId, now);
  }

  /** After such a claim the stores still agree, provided the lease is in whole milliseconds. */
  lemma ClaimAgrees(b: Buffer, p: Durable, ids: set<Id>, lease: int, now: int)
    requires Agree(b, p) && lease % MILLISECOND == 0
    ensures Agree(WithClaimed(b, ids, now + lease), p.(table := Claim(p.table, ids, now, lease)))
  {
    IntervalExact(lease);
    var c, q := WithClaimed(b, ids, now + lease), p.(table := Claim(p.table, ids, now, lease));
    forall id | id in c.docs
      ensures RowsAgree(c.docs[id], q.table[id])
    {
      assert RowsAgree(b.docs[id], p.table[id]);
      ClaimedRowAgrees(b.docs[id], p.table[id], lease, now);
    }
  }

  lemma ClaimedRowAgrees(d: Document, r: Row, lease: int, now: int)
    requires RowsAgree(d, r) && Interval(lease) == lease
    ensures RowsAgree(ClaimedDoc(d, now + lease), ClaimedRow(r, now, lease))
  {
    assert Visible(d).syncAttempts == Visible(r.doc).syncAttempts;
    assert Visible(ClaimedDoc(d, now + lease)) == ClaimedDoc(Visible(d), 0);
    assert Visible(ClaimedDoc(r.doc, now)) == ClaimedDoc(Visible(r.doc), 0);
  }

  // ---- Listings ----

  // None of the last `limit` documents was created before one that precedes it.
  ghost predicate NewestLast(m: seq<Document>, limit: nat) {
    forall i, j :: 0 <= i < j < |m| && j + limit >= |m| ==> m[i].capture.createdAt <= m[j].capture.createdAt
  }

  // m enumerates, under their ids, the stored documents of order that pass the filter.
  ghost predicate Enumerates(docs: Documents, order: seq<Id>, status: string, m: seq<Document>) {
    && (forall i :: 0 <= i < |m| ==>
          m[i].id in order && m[i].id in docs && docs[m[i].id] == m[i] && Shows(status, m[i].status))
    && Distinct(IdsOf(m))
    && (forall id :: id in order && id in docs && Shows(status, docs[id].status) ==> id in IdsOf(m))
  }

  lemma {:induction false} MatchingEnumerates(docs: Documents, order: seq<Id>, status: string)
    requires Distinct(order) && forall id :: id in order ==> id in docs && docs[id].id == id
    ensures Enumerates(docs, order, status, Matching(docs, order, status))
  {
    if order == [] {
    } else {
      var rest, d := Matching(docs, order[1..], status), docs[order[0]];
      MatchingEnumerates(docs, order[1..], status);
      assert order == [order[0]] + order[1..];
      assert order[0] !in IdsOf(rest);
      OneMoreEnumerated(docs, order, status, rest);
    }
  }

  lemma OneMoreEnumerated(docs: Documents, order: seq<Id>, status: string, rest: seq<Document>)
    requires order != [] && order[0] in docs && docs[order[0]].id == order[0]
    requires Enumerates(docs, order[1..], status, rest) && order[0] !in IdsOf(rest)
    ensures var d := docs[order[0]];
            Enumerates(docs, order, status, if Shows(status, d.status) then [d] + rest else rest)
  {
    var d := docs[order[0]];
    assert order == [order[0]] + order[1..];
    if Shows(status, d.status) {
      assert IdsOf([d] + rest) == [d.id] + IdsOf(rest);
      assert Distinct([d.id] + IdsOf(rest));
      forall id | id in order && id in docs && Shows(status, docs[id].status)
        ensures id in [d.id] + IdsOf(rest)
      {
        assert id != order[0] ==> id in order[1..];
      }
    }
  }

  /** What memory lists is an answer the table's query may give exactly when, of the matching documents,
      none that is shown was created before one inserted earlier. */
  lemma ListingIsLegalIff(b: Buffer, status: string, limit: nat)
    requires Valid(b)
    ensures forall id :: id in b.order ==> id in b.docs
    ensures var m := Matching(b.docs, b.order, status);
            IsListing(b.docs, status, limit, IdsOf(Shown(Reversed(m), limit))) <==> NewestLast(m, limit)
  {
    ValidIndexed(b);
    var m := Matching(b.docs, b.order, status);
    MatchingEnumerates(b.docs, b.order, status);
    ListedAreMatching(b, status, m);
    ReversedAll(m);
    ShownIsListingIff(b.docs, status, limit, m, IdsOf(Shown(Reversed(m), limit)));
  }

  lemma ListedAreMatching(b: Buffer, status: string, m: seq<Document>)
    requires Valid(b) && Enumerates(b.docs, b.order, status, m)
    ensures ListedIds(b.docs, status) == Elements(IdsOf(m))
    ensures |ListedIds(b.docs, status)| == |m|
  {
    forall id
      ensures id in ListedIds(b.docs, status) <==> id in IdsOf(m)
    {
      assert id in b.docs ==> id in Elements(b.order);
    }
    DistinctSize(IdsOf(m));
  }

  lemma ShownIsListingIff(docs: Documents, status: string, limit: nat, m: seq<Document>, out: seq<Id>)
    requires ListedIds(docs, status) == Elements(IdsOf(m)) && |ListedIds(docs, status)| == |m| && Distinct(IdsOf(m))
    requires forall i :: 0 <= i < |m| ==> m[i].id in docs && docs[m[i].id] == m[i]
    requires |out| == (if |m| <= limit then |m| else limit)
    requires forall i :: 0 <= i < |out| ==> out[i] == m[|m| - 1 - i].id
    ensures IsListing(docs, status, limit, out) <==> NewestLast(m, limit)
  {
    assert forall i :: 0 <= i < |m| ==> IdsOf(m)[i] in Elements(IdsOf(m));
    if NewestLast(m, limit) {
      NewestAreListed(docs, status, limit, m, out);
    }
    if IsListing(docs, status, limit, out) {
      ListedAreNewest(docs, status, limit, m, out);
    }
  }

  lemma LastAreShown(m: seq<Document>, out: seq<Id>, k: nat)
    requires |out| <= |m| && forall i :: 0 <= i < |out| ==> out[i] == m[|m| - 1 - i].id
    requires k < |m|
    ensures k >= |m| - |out| ==> m[k].id in out
  {
    if k >= |m| - |out| {
      assert out[|m| - 1 - k] == m[k].id;
    }
  }

  lemma NewestAreListed(docs: Documents, status: string, limit: nat, m: seq<Document>, out: seq<Id>)
    requires ListedIds(docs, status) == Elements(IdsOf(m)) && |ListedIds(docs, status)| == |m| && Distinct(IdsOf(m))
    requires forall i :: 0 <= i < |m| ==> m[i].id in docs && docs[m[i].id] == m[i]
    requires |out| == (if |m| <= limit then |m| else limit)
    requires forall i :: 0 <= i < |out| ==> out[i] == m[|m| - 1 - i].id
    requires NewestLast(m, limit)
    ensures IsListing(docs, status, limit, out)
  {
    forall i | 0 <= i < |out|
      ensures out[i] in ListedIds(docs, status)
    {
      assert out[i] == IdsOf(m)[|m| - 1 - i];
    }
    forall i, j | 0 <= i < j < |out|
      ensures out[i] != out[j] && docs[out[i]].capture.createdAt >= docs[out[j]].capture.createdAt
    {
      assert IdsOf(m)[|m| - 1 - j] != IdsOf(m)[|m| - 1 - i];
      assert m[|m| - 1 - j].capture.createdAt <= m[|m| - 1 - i].capture.createdAt;
    }
    forall i, e | 0 <= i < |out| && e in ListedIds(docs, status) && e !in out
      ensures docs[e].capture.createdAt <= docs[out[i]].capture.createdAt
    {
      var k: nat :| k < |m| && IdsOf(m)[k] == e;
      LastAreShown(m, out, k);
      assert m[k].capture.createdAt <= m[|m| - 1 - i].capture.createdAt;
    }
  }

  lemma ListedAreNewest(docs: Documents, status: string, limit: nat, m: seq<Document>, out: seq<Id>)
    requires ListedIds(docs, status) == Elements(IdsOf(m)) && Distinct(IdsOf(m))
    requires forall i :: 0 <= i < |m| ==> m[i].id in docs && docs[m[i].id] == m[i]
    requires |out| == (if |m| <= limit then |m| else limit)
    requires forall i :: 0 <= i < |out| ==> out[i] == m[|m| - 1 - i].id
    requires IsListing(docs, status, limit, out)
    ensures NewestLast(m, limit)
  {
    forall i: nat, j: nat | i < j < |m| && j + limit >= |m|
      ensures m[i].capture.createdAt <= m[j].capture.createdAt
    {
      if i >= |m| - |out| {
        ShownPair(docs, status, limit, m, out, i, j);
      } else {
        assert IdsOf(m)[i] in Elements(IdsOf(m));
        FirstAreHidden(m, out, i);
        HiddenPair(docs, status, limit, m, out, i, j);
      }
    }
  }

  lemma ShownPair(docs: Documents, status: string, limit: nat, m: seq<Document>, out: seq<Id>, i: nat, j: nat)
    requires forall i :: 0 <= i < |m| ==> m[i].id in docs && docs[m[i].id] == m[i]
    requires |out| <= |m| && forall i :: 0 <= i < |out| ==> out[i] == m[|m| - 1 - i].id
    requires IsListing(docs, status, limit, out) && |m| - |out| <= i < j < |m|
    ensures m[i].capture.createdAt <= m[j].capture.createdAt
  {
    assert out[|m| - 1 - i] == m[i].id && out[|m| - 1 - j] == m[j].id;
  }

  lemma HiddenPair(docs: Documents, status: string, limit: nat, m: seq<Document>, out: seq<Id>, i: nat, j: nat)
    requires forall i :: 0 <= i < |m| ==> m[i].id in docs && docs[m[i].id] == m[i]
    requires |out| <= |m| && forall i :: 0 <= i < |out| ==> out[i] == m[|m| - 1 - i].id
    requires IsListing(docs, status, limit, out) && i < |m| - |out| <= j < |m|
    requires m[i].id in ListedIds(docs, status) && m[i].id !in out
    ensures m[i].capture.createdAt <= m[j].capture.createdAt
  {
    assert out[|m| - 1 - j] == m[j].id;
  }

  lemma FirstAreHidden(m: seq<Document>, out: seq<Id>, i: nat)
    requires Distinct(IdsOf(m)) && |out| <= |m|
    requires forall z :: 0 <= z < |out| ==> out[z] == m[|m| - 1 - z].id
    requires i < |m| - |out|
    ensures m[i].id !in out
  {
    forall z | 0 <= z < |out|
      ensures out[z] != m[i].id
    {
      assert IdsOf(m)[i] != IdsOf(m)[|m| - 1 - z];
    }
  }

  // The buffer was filled under a clock that never went back, and last read no later than t.
  ghost predicate Chronological(b: Buffer, t: int) {
    && (forall i, j :: 0 <= i < j < |b.order| && b.order[i] in b.docs && b.order[j] in b.docs ==>
          b.docs[b.order[i]].capture.createdAt <= b.docs[b.order[j]].capture.createdAt)
    && (forall i :: 0 <= i < |b.order| && b.order[i] in b.docs ==> b.docs[b.order[i]].capture.createdAt <= t)
  }

  lemma {:induction false} ChronologicalListing(docs: Documents, order: seq<Id>, status: string, limit: nat)
    requires forall id :: id in order ==> id in docs
    requires forall i, j :: 0 <= i < j < |order| ==>
      docs[order[i]].capture.createdAt <= docs[order[j]].capture.createdAt
    ensures NewestLast(Matching(docs, order, status), limit)
    ensures order != [] ==> forall d :: d in Matching(docs, order, status) ==>
      docs[order[0]].capture.createdAt <= d.capture.createdAt
  {
    if order == [] {
    } else {
      var rest := Matching(docs, order[1..], status);
      ChronologicalListing(docs, order[1..], status, limit);
      forall d | d in rest
        ensures docs[order[0]].capture.createdAt <= d.capture.createdAt
      {
        assert order[1..] != [] && order[1..][0] == order[1];
      }
      assert forall i :: 0 <= i < |rest| ==> rest[i] in rest;
    }
  }

  /** The two stores list from the same rows. */
  lemma ListingAgrees(b: Buffer, p: Durable, status: string, limit: nat, out: seq<Id>)
    requires Agree(b, p)
    ensures IsListing(b.docs, status, limit, out) <==> IsListing(Docs(p.table), status, limit, out)
  {
    forall id | id in b.docs
      ensures b.docs[id].capture == p.table[id].doc.capture && b.docs[id].status == p.table[id].doc.status
    {
      assert RowsAgree(b.docs[id], p.table[id]);
      assert Visible(b.docs[id]).capture == Visible(p.table[id].doc).capture;
      assert Visible(b.docs[id]).status == Visible(p.table[id].doc).status;
    }
    assert ListedIds(b.docs, status) == ListedIds(Docs(p.table), status);
  }
}
