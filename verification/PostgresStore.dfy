/** The durable store: each method issues its SQL statements in order, and reads rows back
    one at a time. */
module PostgresStore {
  import opened Backoff
  import opened Documents
  import opened DocumentTable

  class Postgres {
    var table: Table
    var syncState: map<string, SyncState>

    constructor ()
      ensures table == map[] && syncState == map[]
    {
      table := map[];
      syncState := map[];
    }

    // Insert, then read back: by reference when the insert did nothing, by id otherwise.
    method CreateDocument(id: Id, c: Capture, now: int) returns (r: Result<(Document, bool)>)
      requires Consistent(table)
      modifies this`table
      ensures Consistent(table)
      ensures table == Insert(old(table), id, c, now)
      ensures r.Err? <==> !Taken(old(table), c) && id in old(table)
      ensures r.Ok? ==> r.value.1 == (table != old(table))
      ensures r.Ok? && r.value.1 ==> id !in old(table) && r.value.0 == NewDocument(id, c, now)
      ensures r.Ok? && !r.value.1 ==>
        && r.value.0.id in old(table)
        && old(table)[r.value.0.id].doc == r.value.0
        && SameTriple(r.value.0.capture, c)
      ensures r.Ok? ==> r.value.0.id in table && table[r.value.0.id].doc == r.value.0
      ensures r.Ok? && !r.value.1 ==> table == old(table)
      ensures r.Ok? && r.value.1 ==>
        && r.value.0.id == id && CarriesRequest(r.value.0.capture, c, now)
        && r.value.0.status == Buffered && r.value.0.syncAttempts == 0 && r.value.0.lastError == ""
        && r.value.0.upstreamId == "" && r.value.0.updatedAt == now && r.value.0.syncedAt == None
        && table == old(table)[id := Row(r.value.0, now)]
      ensures r.Ok? && !r.value.1 ==>
        && c.reference != "" && r.value.0.capture.depotId == c.depotId
        && r.value.0.capture.docType == c.docType && r.value.0.capture.reference == c.reference
      ensures r.Ok? && r.value.1 && c.reference != "" ==> forall k :: k in old(table) ==>
        || old(table)[k].doc.capture.depotId != c.depotId
        || old(table)[k].doc.capture.docType != c.docType
        || old(table)[k].doc.capture.reference != c.reference
    {
      var tag := InsertTagFor(table, id, c);
      InsertKeepsConsistent(table, id, c, now);
      table := Insert(table, id, c, now);
      if tag == DuplicateKey {
        return Err("duplicate key");
      }
      if tag == NoRow {
        var existing := GetByReference(c);
        r := match existing
             case Ok(d) => Ok((d, false))
             case Err(e) => Err(e);
        return;
      }
      return Ok((table[id].doc, true));
    }

    method GetByReference(c: Capture) returns (r: Result<Document>)
      requires Consistent(table)
      ensures r.Ok? <==> exists id :: id in table && SameTriple(table[id].doc.capture, c)
      ensures r.Ok? ==> r.value.id in table && table[r.value.id].doc == r.value && SameTriple(r.value.capture, c)
    {
      if id :| id in table && SameTriple(table[id].doc.capture, c) {
        return Ok(table[id].doc);
      }
      return Err("not found");
    }

    method GetDocument(id: Id) returns (r: Result<Document>)
      ensures r.Ok? <==> id in table
      ensures r.Ok? ==> r.value == table[id].doc
    {
      if id in table {
        return Ok(table[id].doc);
      }
      return Err("not found");
    }

    // returned is the order in which the query hands back the rows it lists.
    method ListDocuments(status: string, limit: int, returned: seq<Id>) returns (out: seq<Document>)
      requires Consistent(table) && IsListing(Docs(table), status, ListingLimit(limit), returned)
      ensures |out| == |returned|
      ensures forall i :: 0 <= i < |out| ==>
        && returned[i] in table && out[i] == table[returned[i]].doc && HasStatus(out[i].status, status)
      ensures forall i, j :: 0 <= i < j < |out| ==>
        out[i].id != out[j].id && out[i].capture.createdAt >= out[j].capture.createdAt
      ensures var most := if limit <= 0 || limit > 500 then 100 else limit;
              && |out| <= most
              && forall id :: id in table && HasStatus(table[id].doc.status, status) && id !in returned ==>
                   |out| == most
                   && forall i :: 0 <= i < |out| ==> out[i].capture.createdAt >= table[id].doc.capture.createdAt
    {
      out := [];
      var i := 0;
      while i < |returned|
        invariant 0 <= i <= |returned| && |out| == i
        invariant forall k :: 0 <= k < i ==> returned[k] in table && out[k] == table[returned[k]].doc
      {
        assert returned[i] in ListedIds(Docs(table), status);
        out := out + [table[returned[i]].doc];
        i := i + 1;
      }
      forall k | 0 <= k < |out|
        ensures Shows(status, out[k].status) && out[k].id == returned[k] && out[k] == Docs(table)[returned[k]]
      {
        assert returned[k] in ListedIds(Docs(table), status);
      }
      forall id | id in table && HasStatus(table[id].doc.status, status) && id !in returned
        ensures |out| == ListingLimit(limit)
        ensures forall i :: 0 <= i < |out| ==> out[i].capture.createdAt >= table[id].doc.capture.createdAt
      {
        UnlistedIsOlder(Docs(table), status, ListingLimit(limit), returned, id);
      }
    }

    // returned is the order in which the database hands back the rows it chose.
    method ClaimPending(depot: string, limit: int, lease: int, now: int, returned: seq<Id>)
      returns (out: seq<Document>)
      requires Distinct(returned)
      requires IsSelection(table, {}, depot, EffectiveLimit(limit, 25), now, Elements(returned))
      modifies this`table
      ensures table == Claim(old(table), Elements(returned), now, lease)
      ensures |out| == |returned| <= if limit <= 0 then 25 else limit
      ensures forall i :: 0 <= i < |out| ==>
        && returned[i] in old(table)
        && out[i] == ClaimedDoc(old(table)[returned[i]].doc, now)
        && Due(old(table)[returned[i]], depot, now)
        && IsClaimOf(out[i], old(table)[returned[i]].doc, now)
        && returned[i] in table && table[returned[i]] == Row(out[i], now + Interval(lease))
      ensures forall id :: id in old(table) && id !in returned ==> id in table && table[id] == old(table)[id]
      ensures forall id :: id in old(table) && id !in returned && Due(old(table)[id], depot, now) ==>
        && |out| == (if limit <= 0 then 25 else limit)
        && forall i :: 0 <= i < |out| ==> old(table)[returned[i]].availableAt <= old(table)[id].availableAt
    {
      table := Claim(table, Elements(returned), now, lease);
      out := [];
      var i := 0;
      while i < |returned|
        invariant 0 <= i <= |returned| && |out| == i
        invariant forall k :: 0 <= k < i ==>
          returned[k] in old(table) && out[k] == ClaimedDoc(old(table)[returned[k]].doc, now)
      {
        assert returned[i] in Elements(returned);
        out := out + [table[returned[i]].doc];
        i := i + 1;
      }
      SelectedAreDue(old(table), depot, EffectiveLimit(limit, 25), now, returned);
    }

    method MarkSynced(id: Id, upstreamId: string, now: int) returns (found: bool)
      modifies this`table
      ensures found <==> id in old(table)
      ensures table.Keys == old(table).Keys
      ensures forall k :: k in table && k != id ==> table[k] == old(table)[k]
      ensures found ==>
        && table[id].doc.status == Synced
        && table[id].doc.upstreamId == upstreamId
        && table[id].doc.syncedAt == Some(now)
        && table[id].doc.updatedAt == now
        && table[id].doc.lastError == ""
        && table[id].doc.id == old(table)[id].doc.id
        && table[id].doc.capture == old(table)[id].doc.capture
        && table[id].doc.syncAttempts == old(table)[id].doc.syncAttempts
        && table[id].availableAt == old(table)[id].availableAt
      ensures table == MarkedSynced(old(table), id, upstreamId, now)
    {
      found := id in table;
      table := MarkedSynced(table, id, upstreamId, now);
    }

    method MarkFailed(id: Id, error: string, delay: int, now: int) returns (found: bool)
      modifies this`table
      ensures found <==> id in old(table)
      ensures table.Keys == old(table).Keys
      ensures forall k :: k in table && k != id ==> table[k] == old(table)[k]
      ensures found ==>
        && table[id].doc.status == Failed
        && table[id].doc.lastError == error
        && table[id].availableAt == now + Interval(delay)
        && table[id].doc.capture == old(table)[id].doc.capture
        && table[id].doc.syncAttempts == old(table)[id].doc.syncAttempts
        && table[id].doc.upstreamId == old(table)[id].doc.upstreamId
        && table[id].doc.syncedAt == old(table)[id].doc.syncedAt
        && table[id].doc.updatedAt == now
        && table[id].doc.id == old(table)[id].doc.id
      ensures table == MarkedFailed(old(table), id, error, delay, now)
    {
      found := id in table;
      table := MarkedFailed(table, id, error, delay, now);
    }

    method ResetForRetry(id: Id, now: int) returns (found: bool)
      modifies this`table
      ensures found <==> id in old(table)
      ensures table.Keys == old(table).Keys
      ensures forall k :: k in table && k != id ==> table[k] == old(table)[k]
      ensures found ==>
        && table[id].doc.status == Buffered
        && table[id].doc.lastError == ""
        && table[id].availableAt == now
        && table[id].doc.capture == old(table)[id].doc.capture
        && table[id].doc.syncAttempts == old(table)[id].doc.syncAttempts
        && table[id].doc.upstreamId == old(table)[id].doc.upstreamId
        && table[id].doc.syncedAt == old(table)[id].doc.syncedAt
        && table[id].doc.updatedAt == now
        && table[id].doc.id == old(table)[id].doc.id
      ensures table == Requeued(old(table), id, now)
    {
      found := id in table;
      table := Requeued(table, id, now);
    }

    // groups is the query's answer, one row for each status present.
    method Stats(depot: string, groups: seq<(Status, nat)>) returns (st: SyncStats)
      requires IsGrouping(table, depot, groups)
      ensures st.counts == StatusCounts(Docs(table), depot) && CountsStatuses(st.counts, Docs(table), depot)
      ensures st.last == StateIn(syncState, depot)
      ensures st.last == if depot in syncState then syncState[depot] else SyncState(None, false, "")
    {
      var counts := Counts(0, 0, 0, 0);
      var i := 0;
      while i < |groups|
        invariant 0 <= i <= |groups|
        invariant forall k :: 0 <= k < i ==> CountOf(counts, groups[k].0) == groups[k].1
        invariant forall s :: CountOf(counts, s) == 0 || exists k :: 0 <= k < i && groups[k].0 == s
      {
        ghost var before := counts;
        match groups[i].0 {
          case Buffered => counts := counts.(buffered := groups[i].1);
          case Syncing => counts := counts.(syncing := groups[i].1);
          case Synced => counts := counts.(synced := groups[i].1);
          case Failed => counts := counts.(failed := groups[i].1);
        }
        assert forall s :: s != groups[i].0 ==> CountOf(counts, s) == CountOf(before, s);
        i := i + 1;
      }
      GroupingGivesCounts(table, depot, groups, counts);
      StatusCountsCount(Docs(table), depot);
      var last := GetSyncState(depot);
      st := SyncStats(counts, last);
    }

    method GetSyncState(depot: string) returns (st: SyncState)
      ensures st == StateIn(syncState, depot)
      ensures st == if depot in syncState then syncState[depot] else SyncState(None, false, "")
    {
      st := if depot in syncState then syncState[depot] else NEVER_SYNCED;
    }

    method SetSyncState(depot: string, st: SyncState)
      modifies this`syncState
      ensures syncState == old(syncState)[depot := st]
    {
      syncState := syncState[depot := st];
    }
  }

  // A row the claim query may select: pending, available, and of the depot, if one is named.
  predicate Due(r: Row, depot: string, now: int) {
    && (r.doc.status == Buffered || r.doc.status == Failed) && r.availableAt <= now
    && (depot == "" || r.doc.capture.depotId == depot)
  }

  lemma SelectedAreDue(t: Table, depot: string, limit: nat, now: int, returned: seq<Id>)
    requires Distinct(returned) && IsSelection(t, {}, depot, limit, now, Elements(returned))
    ensures |returned| <= limit
    ensures forall i :: 0 <= i < |returned| ==> returned[i] in t && Due(t[returned[i]], depot, now)
    ensures forall id :: id in t && id !in returned && Due(t[id], depot, now) ==>
      |returned| == limit && forall i :: 0 <= i < |returned| ==> t[returned[i]].availableAt <= t[id].availableAt
  {
    DistinctSize(returned);
    forall i | 0 <= i < |returned|
      ensures returned[i] in t && Due(t[returned[i]], depot, now)
    {
      assert returned[i] in Elements(returned);
    }
    forall id | id in t && id !in returned && Due(t[id], depot, now)
      ensures |returned| == limit
      ensures forall i :: 0 <= i < |returned| ==> t[returned[i]].availableAt <= t[id].availableAt
    {
      assert id in EligibleIds(t, {}, depot, now) && id !in Elements(returned);
      assert forall i :: 0 <= i < |returned| ==> returned[i] in Elements(returned);
    }
  }

  lemma UnlistedIsOlder(docs: Documents, status: string, limit: nat, out: seq<Id>, id: Id)
    requires IsListing(docs, status, limit, out) && id in docs && HasStatus(docs[id].status, status) && id !in out
    ensures |out| == limit
    ensures forall i :: 0 <= i < |out| ==>
      out[i] in docs && docs[out[i]].capture.createdAt >= docs[id].capture.createdAt
  {
    var all := ListedIds(docs, status);
    assert id in all;
    if |all| < limit {
      DistinctSize(out);
      SubsetSize(Elements(out) + {id}, all);
    }
  }

  lemma GroupingGivesCounts(t: Table, depot: string, groups: seq<(Status, nat)>, counts: Counts)
    requires IsGrouping(t, depot, groups)
    requires forall k :: 0 <= k < |groups| ==> CountOf(counts, groups[k].0) == groups[k].1
    requires forall s :: CountOf(counts, s) == 0 || exists k :: 0 <= k < |groups| && groups[k].0 == s
    ensures counts == StatusCounts(Docs(t), depot)
  {
    GroupCount(t, depot, groups, counts, Buffered);
    GroupCount(t, depot, groups, counts, Syncing);
    GroupCount(t, depot, groups, counts, Synced);
    GroupCount(t, depot, groups, counts, Failed);
  }

  lemma GroupCount(t: Table, depot: string, groups: seq<(Status, nat)>, counts: Counts, s: Status)
    requires IsGrouping(t, depot, groups)
    requires forall k :: 0 <= k < |groups| ==> CountOf(counts, groups[k].0) == groups[k].1
    requires CountOf(counts, s) == 0 || exists k :: 0 <= k < |groups| && groups[k].0 == s
    ensures CountOf(counts, s) == |WithStatus(Docs(t), depot, s)|
  {
  }
}
